/** What a fetch brings, in the server's own data: the list, the offers and what is kept. */
module ModelFetch {
  import opened Wrappers
  import opened ModelIndex
  import opened ModelCache

  // ----- The fetched models, one by one

  /** Every fetched model is in the converted list at its place, under its three declared ids and
      with each of its two flags. */
  lemma {:induction false} ConvertKeepsAll(available: seq<Available>, i: nat, source: ModelIdSource)
    requires i < |available|
    ensures |ConvertAll(available)| == |available|
    ensures var m := ConvertAll(available)[i];
      && m.id == available[i].name
      && PublicId(source, m) == DeclaredId(source, available[i])
      && m.isMax == available[i].isMax && m.isNonMax == available[i].isNonMax
    decreases |available|
  {
    if i > 0 {
      ConvertKeepsAll(available[1..], i - 1, source);
    } else if |available| > 1 {
      ConvertKeepsAll(available[1..], 0, source);
    }
  }

  lemma {:induction false} FetchedMember(available: seq<Available>, m: Model) returns (i: nat)
    requires m in ConvertAll(available)
    ensures i < |available| && |ConvertAll(available)| == |available| && ConvertAll(available)[i] == m
  {
    i :| 0 <= i < |ConvertAll(available)| && ConvertAll(available)[i] == m;
    ConvertLength(available);
  }

  lemma {:induction false} ConvertLength(available: seq<Available>)
    ensures |ConvertAll(available)| == |available|
    decreases |available|
  {
    if available != [] {
      ConvertLength(available[1..]);
    }
  }

  /** A fetch counts as the same list when it has the same three ids at every place, whatever the
      flags say. */
  lemma SameListMeansSameIds(models: seq<Model>, available: seq<Available>)
    ensures SameModels(models, ConvertAll(available)) <==>
      |models| == |available| && forall i | 0 <= i < |models| ::
        && models[i].id == available[i].name
        && models[i].clientId == DeclaredId(ClientId, available[i])
        && models[i].serverId == DeclaredId(ServerId, available[i])
  {
    ConvertLength(available);
    forall i | 0 <= i < |available|
      ensures var m := ConvertAll(available)[i];
        && m.id == available[i].name && m.clientId == DeclaredId(ClientId, available[i])
        && m.serverId == DeclaredId(ServerId, available[i])
    {
      ConvertKeepsAll(available, i, ClientId);
      ConvertKeepsAll(available, i, ServerId);
    }
  }

  // ----- Offers of a fetch

  /** What one fetched model offers: its declared id with and without `-online`, and the same two
      behind `-max` if the server says that it comes in max mode and in the other one. */
  predicate OfferedBy(source: ModelIdSource, a: Available, v: string) {
    var id := DeclaredId(source, a);
    v == id || v == id + "-online" || (a.isMax && a.isNonMax && (v == id + "-max" || v == id + "-max" + "-online"))
  }

  lemma OffersOfFetched(source: ModelIdSource, available: seq<Available>, v: string)
    ensures Offers(source, ConvertAll(available), v) <==> exists a <- available :: OfferedBy(source, a, v)
  {
    if m :| m in ConvertAll(available) && IsOffer(source, m, v) {
      var i := FetchedMember(available, m);
      ConvertKeepsAll(available, i, source);
      assert available[i] in available && OfferedBy(source, available[i], v);
    }
    if a :| a in available && OfferedBy(source, a, v) {
      var i :| 0 <= i < |available| && available[i] == a;
      ConvertKeepsAll(available, i, source);
      assert ConvertAll(available)[i] in ConvertAll(available) && IsOffer(source, ConvertAll(available)[i], v);
    }
  }

  lemma {:induction false} NothingListed(available: seq<Available>)
    ensures NotListed(available, []) == available
    decreases |available|
  {
    if available != [] {
      NothingListed(available[1..]);
    }
  }

  /** The first fetch into an empty list, in any mode: what is offered afterwards is exactly what
      the server's models offer. */
  lemma FirstFetchOffersExactly(source: ModelIdSource, mode: FetchMode, available: seq<Available>, v: string)
    requires available != []
    ensures var y := Updated(source, Created(source, []), mode, false, available);
      v in y.cachedIds <==> exists a <- available :: OfferedBy(source, a, v)
  {
    var x := Created(source, []);
    var u := Update(mode, false, available);
    NothingListed(available);
    ConvertLength(available);
    assert NewModels(mode, [], available) == ConvertAll(available);
    CreatedIsExact(source, []);
    assert Undisturbed(source, [], ConvertAll(available)) by {
      forall m | m in ConvertAll(available) ensures !HasId(source, [], PublicId(source, m)) {}
    }
    UpdateStaysExactExactly(source, x, u);
    OffersOfFetched(source, available, v);
  }

  /** After any start-up list: an update that replaces the list undisturbed offers exactly what the
      server's models offer. */
  lemma ReplacedListOffersExactly(source: ModelIdSource, x: Index, available: seq<Available>, v: string)
    requires available != [] && Exact(source, x.models, x.cachedIds)
    requires !SameModels(x.models, ConvertAll(available)) && Undisturbed(source, x.models, ConvertAll(available))
    ensures var y := Updated(source, x, Truncate, false, available);
      v in y.cachedIds <==> exists a <- available :: OfferedBy(source, a, v)
  {
    UpdateStaysExactExactly(source, x, Update(Truncate, false, available));
    OffersOfFetched(source, available, v);
  }

  // ----- The order of the offers

  lemma {:induction false} PushedBehind(source: ModelIdSource, ids: seq<string>, models: seq<Model>)
    ensures PushModels(source, ids, models) == ids + PushModels(source, [], models)
    decreases |models|
  {
    if models == [] {
      assert ids + [] == ids;
    } else {
      PushedBehind(source, ids, models[..|models| - 1]);
    }
  }

  /** A further model adds its offers at the end: its id, its `-online` form, and for a model of
      both modes the `-max` and the `-max-online` form, in this order. */
  lemma OffersAreInOrder(source: ModelIdSource, ids: seq<string>, models: seq<Model>, m: Model)
    ensures var id := PublicId(source, m);
      PushModels(source, ids, models + [m]) == ids + PushModels(source, [], models) +
        if m.isMax && m.isNonMax then [id, id + "-online", id + "-max", id + "-max" + "-online"] else [id, id + "-online"]
  {
    PushedBehind(source, ids, models + [m]);
    PushedBehind(source, ids, models);
    assert (models + [m])[..|models|] == models;
  }

  /** What stays offered stays in its order. */
  lemma {:induction false} KeptOfTwo(source: ModelIdSource, a: seq<string>, b: seq<string>, toRemove: seq<Model>)
    ensures KeepIds(source, a + b, toRemove) == KeepIds(source, a, toRemove) + KeepIds(source, b, toRemove)
    decreases |a|
  {
    if a == [] {
      assert a + b == b;
    } else {
      assert (a + b)[1..] == a[1..] + b;
      KeptOfTwo(source, a[1..], b, toRemove);
    }
  }

  // ----- The new list, one model at a time

  lemma {:induction false} NotNamedOfTwo(a: seq<Model>, b: seq<Model>, available: seq<Available>)
    ensures NotNamed(a + b, available) == NotNamed(a, available) + NotNamed(b, available)
    decreases |a|
  {
    if a == [] {
      assert a + b == b;
    } else {
      assert (a + b)[1..] == a[1..] + b;
      NotNamedOfTwo(a[1..], b, available);
    }
  }

  lemma {:induction false} NotListedOfTwo(a: seq<Available>, b: seq<Available>, models: seq<Model>)
    ensures NotListed(a + b, models) == NotListed(a, models) + NotListed(b, models)
    decreases |a|
  {
    if a == [] {
      assert a + b == b;
    } else {
      assert (a + b)[1..] == a[1..] + b;
      NotListedOfTwo(a[1..], b, models);
    }
  }

  lemma {:induction false} ConvertOfTwo(a: seq<Available>, b: seq<Available>)
    ensures ConvertAll(a + b) == ConvertAll(a) + ConvertAll(b)
    decreases |a|
  {
    if a == [] {
      assert a + b == b;
    } else {
      assert (a + b)[1..] == a[1..] + b;
      ConvertOfTwo(a[1..], b);
    }
  }

  /** What one more fetched model adds to the list in each mode, always at its end: replacing takes
      every model; appending takes one whose name is not listed; and appending with replacement
      takes every model and drops the listed ones of its name. */
  lemma OneMoreFetched(current: seq<Model>, available: seq<Available>, a: Available)
    ensures var more := available + [a];
      && NewModels(Truncate, current, more) == NewModels(Truncate, current, available) + [Convert(a)]
      && NewModels(Append, current, more) == NewModels(Append, current, available)
           + (if exists m <- current :: m.id == a.name then [] else [Convert(a)])
      && NewModels(AppendTruncate, current, more) ==
           NotNamed(NotNamed(current, available), [a]) + ConvertAll(available) + [Convert(a)]
  {
    ConvertOfTwo(available, [a]);
    NotListedOfTwo(available, [a], current);
    NotNamedTwice(current, available, a);
    assert ConvertAll([a]) == [Convert(a)];
    ConvertOfTwo(NotListed(available, current), NotListed([a], current));
  }

  lemma {:induction false} NotNamedTwice(models: seq<Model>, available: seq<Available>, a: Available)
    ensures NotNamed(models, available + [a]) == NotNamed(NotNamed(models, available), [a])
    decreases |models|
  {
    if models != [] {
      NotNamedTwice(models[1..], available, a);
      var m := models[0];
      assert Named(available + [a], m.id) <==> Named(available, m.id) || a.name == m.id by {
        assert a in available + [a];
        forall b | b in available ensures b in available + [a] {}
      }
      assert Named([a], m.id) <==> a.name == m.id by {
        assert a in [a];
      }
      NotNamedOfTwo([m], NotNamed(models[1..], available), [a]);
      assert models == [m] + models[1..];
      NotNamedOfTwo([m], models[1..], available);
      NotNamedOfTwo([m], models[1..], available + [a]);
    }
  }

  /** What one more listed model adds in front of the fetched ones: itself, unless the mode replaces
      the list or replaces the models of its name. */
  lemma OneMoreListed(current: seq<Model>, m: Model, available: seq<Available>)
    ensures NewModels(Truncate, current + [m], available) == NewModels(Truncate, current, available)
    ensures NewModels(AppendTruncate, current + [m], available)
         == NotNamed(current, available) + (if Named(available, m.id) then [] else [m]) + ConvertAll(available)
  {
    NotNamedOfTwo(current, [m], available);
    assert NotNamed([m], available) == if Named(available, m.id) then [] else [m];
  }

  // ----- The last model of an id

  /** A lookup finds the model at the greatest position with that id, and nothing only if no
      position has it. */
  lemma {:induction false} LookupIsGreatest(source: ModelIdSource, models: seq<Model>, id: string) returns (end: nat)
    ensures end <= |models| && forall j | end <= j < |models| :: PublicId(source, models[j]) != id
    ensures match LastWithId(source, models, id)
      case None => end == 0
      case Some(m) => end > 0 && models[end - 1] == m && PublicId(source, m) == id
    decreases |models|
  {
    if models == [] {
      end := 0;
    } else if PublicId(source, models[|models| - 1]) == id {
      end := |models|;
    } else {
      end := LookupIsGreatest(source, models[..|models| - 1], id);
    }
  }

  // ----- What a run of updates keeps of the server's answers

  /** The last answer that had any models. */
  function LastAnswer(updates: seq<Update>): Option<seq<Available>>
    decreases |updates|
  {
    if updates == [] then None
    else
      var later := LastAnswer(updates[1..]);
      if later.Some? then later
      else if updates[0].available != [] then Some(updates[0].available)
      else None
  }

  /** The last non-empty answer is kept as it came, whether or not its models are taken up. */
  lemma {:induction false} LastAnswerIsKept(source: ModelIdSource, x: Index, updates: seq<Update>)
    ensures Run(source, x, updates).raw == if LastAnswer(updates).Some? then LastAnswer(updates) else x.raw
    decreases |updates|
  {
    if updates != [] {
      LastAnswerIsKept(source, Applied(source, x, updates[0]), updates[1..]);
    }
  }

  /** No update of the run is let through. */
  predicate AllThrottled(updates: seq<Update>) {
    forall u <- updates :: u.throttled || u.available == []
  }

  /** Throttled or empty answers change neither the list nor what is offered or found. */
  lemma {:induction false} ThrottledRunKeepsList(source: ModelIdSource, x: Index, updates: seq<Update>)
    requires AllThrottled(updates)
    ensures var y := Run(source, x, updates);
      y.models == x.models && y.cachedIds == x.cachedIds && y.findIds == x.findIds
    decreases |updates|
  {
    if updates != [] {
      assert updates[0] in updates && forall u <- updates[1..] :: u in updates;
      ThrottledRunKeepsList(source, Applied(source, x, updates[0]), updates[1..]);
    }
  }

  /** An answer that is let through leaves a list that agrees with the new one in every id; only
      the flags of a list with the same ids stay as they were. */
  lemma LetThroughListHasItsIds(source: ModelIdSource, x: Index, u: Update)
    requires !u.throttled && u.available != []
    ensures var newer := NewModels(u.mode, x.models, u.available);
      SameModels(Applied(source, x, u).models, newer)
      && (!SameModels(x.models, newer) ==> Applied(source, x, u).models == newer)
  {
  }
}
