/** The list of models with its two derived structures: an index by id and the ids to offer. */
module ModelIndex {
  import opened Wrappers

  datatype Model = Model(id: string, clientId: string, serverId: string, isMax: bool, isNonMax: bool)

  /** Which of its three ids a model is known by. */
  datatype ModelIdSource = Id | ClientId | ServerId

  function PublicId(source: ModelIdSource, m: Model): string {
    match source
    case Id => m.id
    case ClientId => m.clientId
    case ServerId => m.serverId
  }

  /** A model as the server describes it. */
  datatype Available = Available(
    name: string, clientDisplayName: Option<string>, serverModelName: Option<string>, isMax: bool, isNonMax: bool)

  datatype FetchMode = Truncate | AppendTruncate | Append

  datatype Index = Index(
    models: seq<Model>, raw: Option<seq<Available>>, cachedIds: seq<string>, findIds: map<string, nat>)

  // ----- Offered ids

  function Online(id: string): string {
    id + "-online"
  }

  function Max(id: string): string {
    id + "-max"
  }

  predicate IsDual(m: Model) {
    m.isMax && m.isNonMax
  }

  function PushIds(ids: seq<string>, id: string): seq<string> {
    ids + [id] + [Online(id)]
  }

  function PushModel(source: ModelIdSource, ids: seq<string>, m: Model): seq<string> {
    var id := PublicId(source, m);
    var ids := PushIds(ids, id);
    if IsDual(m) then PushIds(ids, Max(id)) else ids
  }

  function PushModels(source: ModelIdSource, ids: seq<string>, models: seq<Model>): seq<string> {
    if models == [] then ids
    else PushModel(source, PushModels(source, ids, models[..|models| - 1]), models[|models| - 1])
  }

  function StripSuffix(s: string, suffix: string): Option<string> {
    if |s| >= |suffix| && s[|s| - |suffix|..] == suffix then Some(s[..|s| - |suffix|]) else None
  }

  /** Whether a cached id is dropped together with the model `mid`. */
  predicate Removes(id: string, mid: string) {
    if id == mid then true
    else
      match StripSuffix(id, "-online")
      case Some(base) => base == mid || StripSuffix(base, "-max") == Some(mid)
      case None => StripSuffix(id, "-max") == Some(mid)
  }

  predicate AnyRemoves(source: ModelIdSource, id: string, models: seq<Model>) {
    exists m <- models :: Removes(id, PublicId(source, m))
  }

  function KeepIds(source: ModelIdSource, ids: seq<string>, toRemove: seq<Model>): seq<string> {
    if ids == [] then []
    else
      var rest := KeepIds(source, ids[1..], toRemove);
      if AnyRemoves(source, ids[0], toRemove) then rest else [ids[0]] + rest
  }

  // ----- The index by id

  /** Collecting pairs into a map: a later model with the same id replaces an earlier one. */
  function IndexIds(source: ModelIdSource, models: seq<Model>): map<string, nat> {
    if models == [] then map[]
    else
      var n := |models| - 1;
      IndexIds(source, models[..n])[PublicId(source, models[n]) := n]
  }

  // ----- The new list

  function Convert(a: Available): Model {
    Model(a.name,
      if a.clientDisplayName.Some? && a.clientDisplayName.value != a.name then a.clientDisplayName.value else a.name,
      if a.serverModelName.Some? && a.serverModelName.value != a.name then a.serverModelName.value else a.name,
      a.isMax, a.isNonMax)
  }

  function ConvertAll(available: seq<Available>): seq<Model> {
    if available == [] then [] else [Convert(available[0])] + ConvertAll(available[1..])
  }

  function NotNamed(models: seq<Model>, available: seq<Available>): seq<Model> {
    if models == [] then []
    else
      var rest := NotNamed(models[1..], available);
      if exists a <- available :: a.name == models[0].id then rest else [models[0]] + rest
  }

  function NotListed(available: seq<Available>, models: seq<Model>): seq<Available> {
    if available == [] then []
    else
      var rest := NotListed(available[1..], models);
      if exists m <- models :: m.id == available[0].name then rest else [available[0]] + rest
  }

  function NewModels(mode: FetchMode, current: seq<Model>, available: seq<Available>): seq<Model> {
    match mode
    case Truncate => ConvertAll(available)
    case AppendTruncate => NotNamed(current, available) + ConvertAll(available)
    case Append => current + ConvertAll(NotListed(available, current))
  }

  /** Equality of models looks at their ids only. */
  predicate SameModel(a: Model, b: Model) {
    a.id == b.id && a.serverId == b.serverId && a.clientId == b.clientId
  }

  predicate SameModels(a: seq<Model>, b: seq<Model>) {
    |a| == |b| && forall i | 0 <= i < |a| :: SameModel(a[i], b[i])
  }

  predicate HasId(source: ModelIdSource, models: seq<Model>, id: string) {
    exists m <- models :: PublicId(source, m) == id
  }

  /** The models whose id is not among those of `others`. */
  function Without(source: ModelIdSource, models: seq<Model>, others: seq<Model>): seq<Model> {
    if models == [] then []
    else
      var rest := Without(source, models[1..], others);
      if HasId(source, others, PublicId(source, models[0])) then rest else [models[0]] + rest
  }

  // ----- The whole update

  function NewCache(source: ModelIdSource, ids: seq<string>, models: seq<Model>, newer: seq<Model>): seq<string> {
    PushModels(source, KeepIds(source, ids, Without(source, models, newer)), Without(source, newer, models))
  }

  function Updated(source: ModelIdSource, x: Index, mode: FetchMode, throttled: bool, available: seq<Available>): Index {
    if available == [] then x
    else
      var newer := NewModels(mode, x.models, available);
      if throttled || SameModels(x.models, newer) then x.(raw := Some(available))
      else Index(newer, Some(available), NewCache(source, x.cachedIds, x.models, newer), IndexIds(source, newer))
  }

  function Created(source: ModelIdSource, models: seq<Model>): Index {
    Index(models, None, PushModels(source, [], models), IndexIds(source, models))
  }

  class Models {
    const source: ModelIdSource
    var models: seq<Model>
    var raw: Option<seq<Available>>
    var cachedIds: seq<string>
    var findIds: map<string, nat>

    function View(): Index
      reads this
    {
      Index(models, raw, cachedIds, findIds)
    }

    /** The index is that of the list: the lookup relies on it without a check. */
    predicate Valid()
      reads this
    {
      findIds == IndexIds(source, models)
    }

    /** `create_models`. */
    constructor (source: ModelIdSource, models: seq<Model>)
      ensures Valid() && this.source == source && View() == Created(source, models)
    {
      var ids: seq<string> := [];
      for i := 0 to |models|
        invariant ids == PushModels(source, [], models[..i])
      {
        var id := PublicId(source, models[i]);
        ids := PushIds(ids, id);
        if models[i].isMax && models[i].isNonMax {
          ids := PushIds(ids, Max(id));
        }
        assert models[..i + 1][..i] == models[..i];
      }
      assert models[..|models|] == models;
      this.source := source;
      this.models := models;
      raw := None;
      cachedIds := ids;
      findIds := IndexIds(source, models);
    }

    method FindId(id: string) returns (r: Option<Model>)
      requires Valid()
      ensures r == LastWithId(source, models, id)
    {
      IndexIsLastPosition(source, models, id);
      r := if id in findIds then Some(models[findIds[id]]) else None;
    }

    method Update(available: seq<Available>, mode: FetchMode, throttled: bool) returns (r: Result<(), string>)
      requires Valid()
      modifies this
      ensures Valid()
      ensures View() == Updated(source, old(View()), mode, throttled, available)
      ensures r.Err? <==> available == []
    {
      if available == [] {
        return Err("Models list cannot be empty");
      }
      raw := Some(available);
      if throttled {
        return Ok(());
      }
      var newer := NewModels(mode, models, available);
      if SameModels(models, newer) {
        return Ok(());
      }
      var toAdd := Without(source, newer, models);
      var toRemove := Without(source, models, newer);
      var ids := KeepIds(source, cachedIds, toRemove);
      ghost var kept := ids;
      for i := 0 to |toAdd|
        invariant ids == PushModels(source, kept, toAdd[..i])
        invariant models == old(models) && cachedIds == old(cachedIds) && raw == Some(available)
      {
        var id := PublicId(source, toAdd[i]);
        ids := PushIds(ids, id);
        if toAdd[i].isMax && toAdd[i].isNonMax {
          ids := PushIds(ids, Max(id));
        }
        assert toAdd[..i + 1][..i] == toAdd[..i];
      }
      assert toAdd[..|toAdd|] == toAdd;
      findIds := IndexIds(source, newer);
      models := newer;
      cachedIds := ids;
      r := Ok(());
    }
  }

  // ----- Lookup is linear search from the end

  function LastWithId(source: ModelIdSource, models: seq<Model>, id: string): Option<Model> {
    if models == [] then None
    else if PublicId(source, models[|models| - 1]) == id then Some(models[|models| - 1])
    else LastWithId(source, models[..|models| - 1], id)
  }

  lemma {:induction false} IndexIsLastPosition(source: ModelIdSource, models: seq<Model>, id: string)
    ensures var find := IndexIds(source, models);
      && (id in find <==> HasId(source, models, id))
      && (id in find ==> find[id] < |models|)
      && LastWithId(source, models, id) == if id in find then Some(models[find[id]]) else None
    decreases |models|
  {
    if models != [] {
      var n := |models| - 1;
      assert models == models[..n] + [models[n]];
      IndexIsLastPosition(source, models[..n], id);
    }
  }

  lemma {:induction false} LastOfTwo(source: ModelIdSource, a: seq<Model>, b: seq<Model>, id: string)
    ensures LastWithId(source, a + b, id) ==
      if LastWithId(source, b, id).Some? then LastWithId(source, b, id) else LastWithId(source, a, id)
    decreases |b|
  {
    if b == [] {
      assert a + b == a;
    } else {
      assert (a + b)[..|a + b| - 1] == a + b[..|b| - 1];
      LastOfTwo(source, a, b[..|b| - 1], id);
    }
  }

  /** Whom a lookup by name finds after an update that replaces the list: the last fetched model
      of that name wins, except when appending, where a listed model stays. */
  lemma ModeDecidesWhoWins(mode: FetchMode, models: seq<Model>, available: seq<Available>, name: string)
    ensures var before, after := LastWithId(Id, models, name), LastWithId(Id, NewModels(mode, models, available), name);
      var fetched := LastWithId(Id, ConvertAll(available), name);
      after == match mode
        case Truncate => fetched
        case AppendTruncate => if fetched.Some? then fetched else before
        case Append => if before.Some? then before else fetched
  {
    match mode
    case Truncate =>
    case AppendTruncate =>
      LastOfTwo(Id, NotNamed(models, available), ConvertAll(available), name);
      ConvertedIsNamed(available, name);
      if LastWithId(Id, ConvertAll(available), name).None? {
        NotNamedKeeps(models, available, name);
      }
    case Append =>
      LastOfTwo(Id, models, ConvertAll(NotListed(available, models)), name);
      ListedIsFound(models, name);
      NotListedKeeps(available, models, name);
  }

  predicate Named(available: seq<Available>, name: string) {
    exists a <- available :: a.name == name
  }

  lemma {:induction false} ListedIsFound(models: seq<Model>, name: string)
    ensures LastWithId(Id, models, name).Some? <==> exists m <- models :: m.id == name
    decreases |models|
  {
    if models != [] {
      var n := |models| - 1;
      assert models == models[..n] + [models[n]];
      ListedIsFound(models[..n], name);
    }
  }

  lemma ConvertFirst(available: seq<Available>, name: string)
    requires available != []
    ensures LastWithId(Id, ConvertAll(available), name) ==
      if LastWithId(Id, ConvertAll(available[1..]), name).Some? then LastWithId(Id, ConvertAll(available[1..]), name)
      else if available[0].name == name then Some(Convert(available[0])) else None
  {
    LastOfTwo(Id, [Convert(available[0])], ConvertAll(available[1..]), name);
  }

  lemma {:induction false} ConvertedIsNamed(available: seq<Available>, name: string)
    ensures LastWithId(Id, ConvertAll(available), name).Some? <==> Named(available, name)
    decreases |available|
  {
    if available != [] {
      ConvertFirst(available, name);
      ConvertedIsNamed(available[1..], name);
      assert available == [available[0]] + available[1..];
    }
  }

  lemma {:induction false} NotNamedKeeps(models: seq<Model>, available: seq<Available>, name: string)
    requires !Named(available, name)
    ensures LastWithId(Id, NotNamed(models, available), name) == LastWithId(Id, models, name)
    decreases |models|
  {
    if models != [] {
      NotNamedKeeps(models[1..], available, name);
      assert models == [models[0]] + models[1..];
      LastOfTwo(Id, [models[0]], models[1..], name);
      LastOfTwo(Id, [models[0]], NotNamed(models[1..], available), name);
    }
  }

  lemma {:induction false} NotListedKeeps(available: seq<Available>, models: seq<Model>, name: string)
    ensures LastWithId(Id, ConvertAll(NotListed(available, models)), name) ==
      if exists m <- models :: m.id == name then None else LastWithId(Id, ConvertAll(available), name)
    decreases |available|
  {
    if available != [] {
      NotListedKeeps(available[1..], models, name);
      ConvertFirst(available, name);
      var kept := NotListed(available, models);
      if !exists m <- models :: m.id == available[0].name {
        assert kept[1..] == NotListed(available[1..], models);
        ConvertFirst(kept, name);
      }
    }
  }

  // ----- Every fetched model can be found

  /** The id the server gives a model for a source: its own name where it gives none. */
  function DeclaredId(source: ModelIdSource, a: Available): string {
    match source
    case Id => a.name
    case ClientId => a.clientDisplayName.UnwrapOr(a.name)
    case ServerId => a.serverModelName.UnwrapOr(a.name)
  }

  lemma {:induction false} ConvertedHasId(source: ModelIdSource, available: seq<Available>, a: Available)
    requires a in available
    ensures HasId(source, ConvertAll(available), DeclaredId(source, a))
    decreases |available|
  {
    var converted := ConvertAll(available);
    if a == available[0] {
      assert Convert(a) in converted && PublicId(source, Convert(a)) == DeclaredId(source, a);
    } else {
      ConvertedHasId(source, available[1..], a);
      var m :| m in ConvertAll(available[1..]) && PublicId(source, m) == DeclaredId(source, a);
      assert m in converted;
    }
  }

  lemma {:induction false} NotListedMember(available: seq<Available>, models: seq<Model>, a: Available)
    requires a in available && !exists m <- models :: m.id == a.name
    ensures a in NotListed(available, models)
    decreases |available|
  {
    if a != available[0] {
      NotListedMember(available[1..], models, a);
    }
  }

  /** After an update that replaces the list, every fetched model has an entry under the id the
      server declares, for each source of ids; with appending, every one that was not listed. */
  lemma FetchedAreFound(source: ModelIdSource, mode: FetchMode, models: seq<Model>, available: seq<Available>, a: Available)
    requires a in available
    requires mode == Append ==> !exists m <- models :: m.id == a.name
    ensures DeclaredId(source, a) in IndexIds(source, NewModels(mode, models, available))
  {
    var fetched := if mode == Append then NotListed(available, models) else available;
    if mode == Append {
      NotListedMember(available, models, a);
    }
    ConvertedHasId(source, fetched, a);
    var m :| m in ConvertAll(fetched) && PublicId(source, m) == DeclaredId(source, a);
    assert m in NewModels(mode, models, available);
    IndexIsLastPosition(source, NewModels(mode, models, available), DeclaredId(source, a));
  }
}
