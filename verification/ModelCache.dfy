/** Exactly when the offered ids stay those of the list, for one update and for whole runs: no
    model that goes may take an offer of one that stays, and no model that stays may gain or lose
    an offer. */
module ModelCache {
  import opened Wrappers
  import opened ModelIndex

  // ----- The ids a model offers

  predicate IsOffer(source: ModelIdSource, m: Model, v: string) {
    var id := PublicId(source, m);
    v == id || v == Online(id) || (IsDual(m) && (v == Max(id) || v == Online(Max(id))))
  }

  predicate Offers(source: ModelIdSource, models: seq<Model>, v: string) {
    exists m <- models :: IsOffer(source, m, v)
  }

  /** The cache holds exactly the offers of the list: the id, its `-online` form, and for models
      that come in both modes the `-max` and `-max-online` forms. */
  ghost predicate Exact(source: ModelIdSource, models: seq<Model>, ids: seq<string>) {
    forall v :: v in ids <==> Offers(source, models, v)
  }

  lemma OffersOneMore(source: ModelIdSource, models: seq<Model>, m: Model, v: string)
    ensures Offers(source, models + [m], v) <==> Offers(source, models, v) || IsOffer(source, m, v)
  {
  }

  lemma PushedModel(source: ModelIdSource, ids: seq<string>, m: Model, v: string)
    ensures v in PushModel(source, ids, m) <==> v in ids || IsOffer(source, m, v)
  {
  }

  lemma {:induction false} PushedModels(source: ModelIdSource, ids: seq<string>, models: seq<Model>, v: string)
    ensures v in PushModels(source, ids, models) <==> v in ids || Offers(source, models, v)
    decreases |models|
  {
    if models != [] {
      var n := |models| - 1;
      PushedModels(source, ids, models[..n], v);
      OffersOneMore(source, models[..n], models[n], v);
      PushedModel(source, PushModels(source, ids, models[..n]), models[n], v);
      assert models == models[..n] + [models[n]];
    }
  }

  lemma CreatedIsExact(source: ModelIdSource, models: seq<Model>)
    ensures Exact(source, models, Created(source, models).cachedIds)
  {
    forall v ensures v in Created(source, models).cachedIds <==> Offers(source, models, v) {
      PushedModels(source, [], models, v);
    }
  }

  // ----- Removal, told by suffixes

  lemma StripAppended(s: string, suffix: string)
    ensures StripSuffix(s + suffix, suffix) == Some(s)
  {
  }

  lemma StripIsAppend(s: string, suffix: string)
    ensures StripSuffix(s, suffix).Some? ==> s == StripSuffix(s, suffix).value + suffix
  {
  }

  lemma MaxIsNotOnline(s: string)
    ensures StripSuffix(Max(s), "-online") == None
  {
    var t := Max(s);
    assert t[|t| - 1] == 'x';
    if StripSuffix(t, "-online").Some? {
      StripIsAppend(t, "-online");
      assert false;
    }
  }

  /** A removed model takes all four forms of its id out of the cache, and nothing else. */
  lemma RemovesExactly(id: string, mid: string)
    ensures Removes(id, mid) <==> id == mid || id == Online(mid) || id == Max(mid) || id == Online(Max(mid))
  {
    StripAppended(mid, "-online");
    StripAppended(mid, "-max");
    StripAppended(Max(mid), "-online");
    MaxIsNotOnline(mid);
    StripIsAppend(id, "-online");
    StripIsAppend(id, "-max");
    if StripSuffix(id, "-online").Some? {
      StripIsAppend(StripSuffix(id, "-online").value, "-max");
    }
  }

  // ----- What an update leaves

  lemma {:induction false} KeptIds(source: ModelIdSource, ids: seq<string>, toRemove: seq<Model>, v: string)
    ensures v in KeepIds(source, ids, toRemove) <==> v in ids && !AnyRemoves(source, v, toRemove)
    decreases |ids|
  {
    if ids != [] {
      KeptIds(source, ids[1..], toRemove, v);
      assert ids == [ids[0]] + ids[1..];
    }
  }

  lemma {:induction false} WithoutMembers(source: ModelIdSource, models: seq<Model>, others: seq<Model>, m: Model)
    ensures m in Without(source, models, others) <==> m in models && !HasId(source, others, PublicId(source, m))
    decreases |models|
  {
    if models != [] {
      WithoutMembers(source, models[1..], others, m);
      assert models == [models[0]] + models[1..];
    }
  }

  /** The cache after an update: what was offered and is not taken, and what added models offer. */
  lemma CacheAfter(source: ModelIdSource, ids: seq<string>, older: seq<Model>, newer: seq<Model>, v: string)
    requires Exact(source, older, ids)
    ensures v in NewCache(source, ids, older, newer) <==>
      || (Offers(source, older, v) && !AnyRemoves(source, v, Without(source, older, newer)))
      || Offers(source, Without(source, newer, older), v)
  {
    var toRemove, toAdd := Without(source, older, newer), Without(source, newer, older);
    PushedModels(source, KeepIds(source, ids, toRemove), toAdd, v);
    KeptIds(source, ids, toRemove, v);
  }

  // ----- When the cache stays exact

  function Forms(id: string): seq<string> {
    [id, Online(id), Max(id), Online(Max(id))]
  }

  /** No model that goes takes an offer of one that stays, unless an added model brings it back. */
  predicate NothingTaken(source: ModelIdSource, older: seq<Model>, newer: seq<Model>) {
    forall m <- newer, r <- older, v <- Forms(PublicId(source, m)) ::
      HasId(source, older, PublicId(source, m)) && IsOffer(source, m, v)
      && !HasId(source, newer, PublicId(source, r)) && Removes(v, PublicId(source, r))
      ==> Offers(source, Without(source, newer, older), v)
  }

  /** A model that stays offers nothing that was not offered, unless an added model offers it. */
  predicate NothingGained(source: ModelIdSource, older: seq<Model>, newer: seq<Model>) {
    forall m <- newer, v <- Forms(PublicId(source, m)) ::
      HasId(source, older, PublicId(source, m)) && IsOffer(source, m, v)
      ==> Offers(source, older, v) || Offers(source, Without(source, newer, older), v)
  }

  /** A model that stays gives up no offer, unless a model that goes takes it along. */
  predicate NothingGivenUp(source: ModelIdSource, older: seq<Model>, newer: seq<Model>) {
    forall m <- older, v <- Forms(PublicId(source, m)) ::
      HasId(source, newer, PublicId(source, m)) && IsOffer(source, m, v)
      ==> Offers(source, newer, v) || AnyRemoves(source, v, Without(source, older, newer))
  }

  predicate Undisturbed(source: ModelIdSource, older: seq<Model>, newer: seq<Model>) {
    NothingTaken(source, older, newer) && NothingGained(source, older, newer) && NothingGivenUp(source, older, newer)
  }

  lemma AddedOffersAreNew(source: ModelIdSource, older: seq<Model>, newer: seq<Model>, v: string)
    ensures Offers(source, Without(source, newer, older), v) ==> Offers(source, newer, v)
  {
    if m :| m in Without(source, newer, older) && IsOffer(source, m, v) {
      WithoutMembers(source, newer, older, m);
    }
  }

  lemma OffersStay(source: ModelIdSource, ids: seq<string>, older: seq<Model>, newer: seq<Model>, v: string)
    requires Exact(source, older, ids) && Undisturbed(source, older, newer) && Offers(source, newer, v)
    ensures v in NewCache(source, ids, older, newer)
  {
    var toRemove, toAdd := Without(source, older, newer), Without(source, newer, older);
    CacheAfter(source, ids, older, newer, v);
    var m :| m in newer && IsOffer(source, m, v);
    assert v in Forms(PublicId(source, m));
    WithoutMembers(source, newer, older, m);
    if HasId(source, older, PublicId(source, m)) && !Offers(source, toAdd, v) {
      if r :| r in toRemove && Removes(v, PublicId(source, r)) {
        WithoutMembers(source, older, newer, r);
        assert false;
      }
    }
  }

  lemma NothingElseStays(source: ModelIdSource, ids: seq<string>, older: seq<Model>, newer: seq<Model>, v: string)
    requires Exact(source, older, ids) && Undisturbed(source, older, newer)
    requires v in NewCache(source, ids, older, newer)
    ensures Offers(source, newer, v)
  {
    CacheAfter(source, ids, older, newer, v);
    AddedOffersAreNew(source, older, newer, v);
    if !Offers(source, Without(source, newer, older), v) {
      var m :| m in older && IsOffer(source, m, v);
      assert v in Forms(PublicId(source, m));
      WithoutMembers(source, older, newer, m);
      RemovesExactly(v, PublicId(source, m));
    }
  }

  lemma ExactMeansUndisturbed(source: ModelIdSource, ids: seq<string>, older: seq<Model>, newer: seq<Model>)
    requires Exact(source, older, ids) && Exact(source, newer, NewCache(source, ids, older, newer))
    ensures Undisturbed(source, older, newer)
  {
    var toRemove, toAdd := Without(source, older, newer), Without(source, newer, older);
    forall m <- newer, r <- older, v <- Forms(PublicId(source, m))
      | HasId(source, older, PublicId(source, m)) && IsOffer(source, m, v)
        && !HasId(source, newer, PublicId(source, r)) && Removes(v, PublicId(source, r))
      ensures Offers(source, toAdd, v)
    {
      WithoutMembers(source, older, newer, r);
      assert AnyRemoves(source, v, toRemove);
      CacheAfter(source, ids, older, newer, v);
    }
    forall m <- newer, v <- Forms(PublicId(source, m)) | IsOffer(source, m, v)
      ensures Offers(source, older, v) || Offers(source, toAdd, v)
    {
      CacheAfter(source, ids, older, newer, v);
    }
    forall m <- older, v <- Forms(PublicId(source, m)) | IsOffer(source, m, v)
      ensures Offers(source, newer, v) || AnyRemoves(source, v, toRemove)
    {
      CacheAfter(source, ids, older, newer, v);
    }
  }

  /** For any lists and ids: the incrementally maintained cache is that of the new list precisely
      when the update disturbs no model that stays. */
  lemma CacheStaysExactExactly(source: ModelIdSource, ids: seq<string>, older: seq<Model>, newer: seq<Model>)
    requires Exact(source, older, ids)
    ensures Exact(source, newer, NewCache(source, ids, older, newer)) <==> Undisturbed(source, older, newer)
  {
    if Undisturbed(source, older, newer) {
      forall v ensures v in NewCache(source, ids, older, newer) <==> Offers(source, newer, v) {
        if v in NewCache(source, ids, older, newer) {
          NothingElseStays(source, ids, older, newer, v);
        }
        if Offers(source, newer, v) {
          OffersStay(source, ids, older, newer, v);
        }
      }
    }
    if Exact(source, newer, NewCache(source, ids, older, newer)) {
      ExactMeansUndisturbed(source, ids, older, newer);
    }
  }

  predicate HasDual(source: ModelIdSource, models: seq<Model>, id: string) {
    exists m <- models :: PublicId(source, m) == id && IsDual(m)
  }

  /** The two lists agree, for every id in both, on whether it comes in both modes. */
  predicate FlagsAgree(source: ModelIdSource, older: seq<Model>, newer: seq<Model>) {
    forall m <- older :: HasId(source, newer, PublicId(source, m)) ==>
      (HasDual(source, older, PublicId(source, m)) <==> HasDual(source, newer, PublicId(source, m)))
  }

  /** Where the modes of the ids that stay do not change, only taking can disturb. */
  lemma AgreeingFlagsKeepOffers(source: ModelIdSource, older: seq<Model>, newer: seq<Model>)
    requires FlagsAgree(source, older, newer)
    ensures Undisturbed(source, older, newer) <==> NothingTaken(source, older, newer)
  {
  }

  // ----- Ids without the suffixes can be read off their forms

  predicate IsBare(id: string) {
    StripSuffix(id, "-online") == None && StripSuffix(id, "-max") == None
  }

  predicate AllBare(source: ModelIdSource, models: seq<Model>) {
    forall m <- models :: IsBare(PublicId(source, m))
  }

  function Stem(v: string): string {
    var w := if StripSuffix(v, "-online").Some? then StripSuffix(v, "-online").value else v;
    if StripSuffix(w, "-max").Some? then StripSuffix(w, "-max").value else w
  }

  lemma StemOfForms(id: string)
    requires IsBare(id)
    ensures Stem(id) == Stem(Online(id)) == Stem(Max(id)) == Stem(Online(Max(id))) == id
  {
    StripAppended(id, "-online");
    StripAppended(id, "-max");
    StripAppended(Max(id), "-online");
    MaxIsNotOnline(id);
  }

  lemma OfferHasStem(source: ModelIdSource, m: Model, v: string)
    requires IsBare(PublicId(source, m)) && IsOffer(source, m, v)
    ensures Stem(v) == PublicId(source, m)
  {
    StemOfForms(PublicId(source, m));
  }

  /** What a list offers of one bare id. */
  lemma OffersOfStem(source: ModelIdSource, models: seq<Model>, v: string)
    requires AllBare(source, models)
    ensures Offers(source, models, v) <==>
      (HasId(source, models, Stem(v)) && (v == Stem(v) || v == Online(Stem(v))))
      || (HasDual(source, models, Stem(v)) && (v == Max(Stem(v)) || v == Online(Max(Stem(v)))))
  {
    if Offers(source, models, v) {
      var m :| m in models && IsOffer(source, m, v);
      OfferHasStem(source, m, v);
    }
  }

  /** Among bare ids nothing is ever taken, and only modes can change. */
  lemma BareIdsOnlyChangeModes(source: ModelIdSource, older: seq<Model>, newer: seq<Model>)
    requires AllBare(source, older) && AllBare(source, newer)
    ensures Undisturbed(source, older, newer) <==> FlagsAgree(source, older, newer)
  {
    forall m <- newer, r <- older, v <- Forms(PublicId(source, m))
      | IsOffer(source, m, v) && Removes(v, PublicId(source, r))
      ensures PublicId(source, m) == PublicId(source, r)
    {
      OfferHasStem(source, m, v);
    }
    assert NothingTaken(source, older, newer);
    if FlagsAgree(source, older, newer) {
      AgreeingFlagsKeepOffers(source, older, newer);
    } else {
      var m :| m in older && HasId(source, newer, PublicId(source, m)) &&
        HasDual(source, older, PublicId(source, m)) != HasDual(source, newer, PublicId(source, m));
      ChangedModeDisturbs(source, older, newer, PublicId(source, m));
    }
  }

  lemma ChangedModeDisturbs(source: ModelIdSource, older: seq<Model>, newer: seq<Model>, id: string)
    requires AllBare(source, older) && AllBare(source, newer) && IsBare(id)
    requires HasId(source, older, id) && HasId(source, newer, id)
    requires HasDual(source, older, id) != HasDual(source, newer, id)
    ensures !Undisturbed(source, older, newer)
  {
    var v := Max(id);
    StemOfForms(id);
    OffersOfStem(source, older, v);
    OffersOfStem(source, newer, v);
    assert |v| != |id| && |v| != |Online(id)|;
    assert v in Forms(id);
    if HasDual(source, older, id) {
      var m :| m in older && PublicId(source, m) == id && IsDual(m);
      assert IsOffer(source, m, v);
      if r :| r in Without(source, older, newer) && Removes(v, PublicId(source, r)) {
        WithoutMembers(source, older, newer, r);
        assert false;
      }
    } else {
      var m :| m in newer && PublicId(source, m) == id && IsDual(m);
      assert IsOffer(source, m, v);
      if a :| a in Without(source, newer, older) && IsOffer(source, a, v) {
        WithoutMembers(source, newer, older, a);
        OfferHasStem(source, a, v);
        assert false;
      }
    }
  }

  // ----- Any number of updates

  datatype Update = Update(mode: FetchMode, throttled: bool, available: seq<Available>)

  function Run(source: ModelIdSource, x: Index, updates: seq<Update>): Index
    decreases |updates|
  {
    if updates == [] then x
    else
      var u := updates[0];
      Run(source, Updated(source, x, u.mode, u.throttled, u.available), updates[1..])
  }

  /** The index has every id of the list, at the position of the last model that has it. */
  ghost predicate Covers(source: ModelIdSource, x: Index) {
    forall id ::
      if HasId(source, x.models, id)
      then id in x.findIds && x.findIds[id] < |x.models| && LastWithId(source, x.models, id) == Some(x.models[x.findIds[id]])
      else id !in x.findIds
  }

  /** Unconditionally, whatever the ids and flags, the index stays current. */
  lemma {:induction false} IndexIsAlwaysCurrent(source: ModelIdSource, x: Index, updates: seq<Update>)
    requires x.findIds == IndexIds(source, x.models)
    ensures var y := Run(source, x, updates); y.findIds == IndexIds(source, y.models) && Covers(source, y)
    decreases |updates|
  {
    if updates == [] {
      forall id
        ensures if HasId(source, x.models, id)
          then id in x.findIds && x.findIds[id] < |x.models| && LastWithId(source, x.models, id) == Some(x.models[x.findIds[id]])
          else id !in x.findIds
      {
        IndexIsLastPosition(source, x.models, id);
      }
    } else {
      var u := updates[0];
      IndexIsAlwaysCurrent(source, Updated(source, x, u.mode, u.throttled, u.available), updates[1..]);
    }
  }

  function Applied(source: ModelIdSource, x: Index, u: Update): Index {
    Updated(source, x, u.mode, u.throttled, u.available)
  }

  /** An update that leaves the list alone, or disturbs no model that stays. */
  predicate IsQuiet(source: ModelIdSource, x: Index, u: Update) {
    var newer := NewModels(u.mode, x.models, u.available);
    u.available == [] || u.throttled || SameModels(x.models, newer) || Undisturbed(source, x.models, newer)
  }

  predicate AllQuiet(source: ModelIdSource, x: Index, updates: seq<Update>)
    decreases |updates|
  {
    updates == [] || (IsQuiet(source, x, updates[0]) && AllQuiet(source, Applied(source, x, updates[0]), updates[1..]))
  }

  /** At every point of the run the offered ids are exactly those of the list. */
  ghost predicate AlwaysExact(source: ModelIdSource, x: Index, updates: seq<Update>)
    decreases |updates|
  {
    Exact(source, x.models, x.cachedIds)
    && (updates == [] || AlwaysExact(source, Applied(source, x, updates[0]), updates[1..]))
  }

  lemma UpdateStaysExactExactly(source: ModelIdSource, x: Index, u: Update)
    requires Exact(source, x.models, x.cachedIds)
    ensures var y := Applied(source, x, u); Exact(source, y.models, y.cachedIds) <==> IsQuiet(source, x, u)
  {
    CacheStaysExactExactly(source, x.cachedIds, x.models, NewModels(u.mode, x.models, u.available));
  }

  lemma {:induction false} RunStaysExactExactly(source: ModelIdSource, x: Index, updates: seq<Update>)
    requires Exact(source, x.models, x.cachedIds)
    ensures AlwaysExact(source, x, updates) <==> AllQuiet(source, x, updates)
    decreases |updates|
  {
    if updates != [] {
      UpdateStaysExactExactly(source, x, updates[0]);
      if IsQuiet(source, x, updates[0]) {
        RunStaysExactExactly(source, Applied(source, x, updates[0]), updates[1..]);
      }
    }
  }

  /** From start-up on, whatever the list and the updates: the offered ids are exactly those of the
      list at every point precisely when every update is quiet. */
  lemma OffersAreExactExactly(source: ModelIdSource, models: seq<Model>, updates: seq<Update>)
    ensures AlwaysExact(source, Created(source, models), updates) <==> AllQuiet(source, Created(source, models), updates)
  {
    CreatedIsExact(source, models);
    RunStaysExactExactly(source, Created(source, models), updates);
  }

  // ----- Lists whose updates are all quiet

  /** Ids are bare and whether one comes in both modes never changes. */
  predicate Steady(source: ModelIdSource, dual: string -> bool, models: seq<Model>) {
    forall m <- models :: IsBare(PublicId(source, m)) && IsDual(m) == dual(PublicId(source, m))
  }

  predicate SteadyUpdates(source: ModelIdSource, dual: string -> bool, updates: seq<Update>) {
    forall u <- updates :: Steady(source, dual, ConvertAll(u.available))
  }

  lemma {:induction false} ConvertSome(available: seq<Available>, models: seq<Model>, m: Model)
    requires m in ConvertAll(NotListed(available, models))
    ensures m in ConvertAll(available)
    decreases |available|
  {
    if available != [] && m != Convert(available[0]) {
      var kept := NotListed(available, models);
      assert m in ConvertAll(NotListed(available[1..], models)) by {
        if kept != NotListed(available[1..], models) {
          assert kept[1..] == NotListed(available[1..], models);
        }
      }
      ConvertSome(available[1..], models, m);
    }
  }

  lemma {:induction false} NotNamedIsSome(models: seq<Model>, available: seq<Available>, m: Model)
    requires m in NotNamed(models, available)
    ensures m in models
    decreases |models|
  {
    if models != [] && m != models[0] {
      NotNamedIsSome(models[1..], available, m);
    }
  }

  lemma NewModelsAreKnown(mode: FetchMode, current: seq<Model>, available: seq<Available>, m: Model)
    requires m in NewModels(mode, current, available)
    ensures m in current || m in ConvertAll(available)
  {
    match mode
    case Truncate =>
    case AppendTruncate =>
      if m !in ConvertAll(available) {
        NotNamedIsSome(current, available, m);
      }
    case Append =>
      if m !in current {
        ConvertSome(available, current, m);
      }
  }

  lemma SteadyUpdateIsQuiet(source: ModelIdSource, dual: string -> bool, x: Index, u: Update)
    requires Steady(source, dual, x.models) && Steady(source, dual, ConvertAll(u.available))
    ensures IsQuiet(source, x, u) && Steady(source, dual, Applied(source, x, u).models)
  {
    var newer := NewModels(u.mode, x.models, u.available);
    forall m <- newer ensures IsBare(PublicId(source, m)) && IsDual(m) == dual(PublicId(source, m)) {
      NewModelsAreKnown(u.mode, x.models, u.available, m);
    }
    BareIdsOnlyChangeModes(source, x.models, newer);
  }

  /** Where no id ends in a suffix and modes depend on the id, every run is quiet. */
  lemma {:induction false} SteadyRunsAreQuiet(source: ModelIdSource, dual: string -> bool, x: Index, updates: seq<Update>)
    requires Steady(source, dual, x.models) && SteadyUpdates(source, dual, updates)
    ensures AllQuiet(source, x, updates)
    decreases |updates|
  {
    if updates != [] {
      var u := updates[0];
      assert u in updates && forall w <- updates[1..] :: w in updates;
      SteadyUpdateIsQuiet(source, dual, x, u);
      SteadyRunsAreQuiet(source, dual, Applied(source, x, u), updates[1..]);
    }
  }

  // ----- The built-in list is not of that kind

  /** Three of the models the program starts with: the name of one is that of another, and of a
      third with a suffix. */
  const BUILT_IN_GEMINI := [
    Model("gemini-2.5-pro-preview-05-06", "gemini-2.5-pro", "gemini-2.5-pro", true, true),
    Model("gemini-2.5-pro", "gemini-2.5-pro", "gemini-2.5-pro", false, true),
    Model("gemini-2.5-pro-max", "gemini-2.5-pro-max", "gemini-2.5-pro-max", false, true)]

  lemma BuiltInListIsNotSteady(source: ModelIdSource, dual: string -> bool, models: seq<Model>)
    requires forall m <- BUILT_IN_GEMINI :: m in models
    ensures !Steady(source, dual, models)
  {
    var m := BUILT_IN_GEMINI[2];
    GeminiNames(source);
    StripAppended("gemini-2.5-pro", "-max");
    assert PublicId(source, m) == "gemini-2.5-pro-max" && m in BUILT_IN_GEMINI;
  }

  /** A model named like the `-max` form of a dual one takes that form along when it goes. */
  lemma NamesakeTakesOffer(source: ModelIdSource, ids: seq<string>, older: seq<Model>, newer: seq<Model>, id: string)
    requires Exact(source, older, ids)
    requires HasId(source, older, id) && HasDual(source, newer, id)
    requires HasId(source, older, Max(id)) && !HasId(source, newer, Max(id))
    ensures Offers(source, newer, Max(id)) && Max(id) !in NewCache(source, ids, older, newer)
  {
    var v := Max(id);
    var m :| m in newer && PublicId(source, m) == id && IsDual(m);
    assert IsOffer(source, m, v);
    var r :| r in older && PublicId(source, r) == v;
    WithoutMembers(source, older, newer, r);
    RemovesExactly(v, v);
    assert AnyRemoves(source, v, Without(source, older, newer));
    CacheAfter(source, ids, older, newer, v);
    if a :| a in Without(source, newer, older) && IsOffer(source, a, v) {
      WithoutMembers(source, newer, older, a);
      OnlyMaxForm(PublicId(source, a), id);
      assert false;
    }
  }

  lemma OnlyMaxForm(a: string, id: string)
    ensures Max(id) != Online(a) && Max(id) != Online(Max(a))
    ensures Max(id) == Max(a) ==> id == a
  {
    MaxIsNotOnline(id);
    StripAppended(a, "-online");
    StripAppended(Max(a), "-online");
    StripAppended(a, "-max");
    StripAppended(id, "-max");
  }

  lemma NamesakeIsLost(source: ModelIdSource, models: seq<Model>, available: seq<Available>, id: string)
    requires HasId(source, models, id) && HasId(source, models, Max(id))
    requires HasDual(source, ConvertAll(available), id) && !HasId(source, ConvertAll(available), Max(id))
    ensures var x, u := Created(source, models), Update(Truncate, false, available);
      var y := Applied(source, x, u);
      && !IsQuiet(source, x, u)
      && Offers(source, y.models, Max(id)) && Max(id) !in y.cachedIds
  {
    var x, newer := Created(source, models), ConvertAll(available);
    CreatedIsExact(source, models);
    SameModelsHaveSameIds(source, models, newer, Max(id));
    NamesakeTakesOffer(source, x.cachedIds, models, newer, id);
    UpdateStaysExactExactly(source, x, Update(Truncate, false, available));
  }

  lemma GeminiNames(source: ModelIdSource)
    ensures Max("gemini-2.5-pro") == "gemini-2.5-pro-max"
    ensures HasId(source, BUILT_IN_GEMINI, "gemini-2.5-pro") && HasId(source, BUILT_IN_GEMINI, "gemini-2.5-pro-max")
  {
    assert PublicId(source, BUILT_IN_GEMINI[1]) == "gemini-2.5-pro";
    assert PublicId(source, BUILT_IN_GEMINI[2]) == "gemini-2.5-pro-max";
  }

  /** With any source of ids: the first fetch that still has a dual `gemini-2.5-pro` but no
      `gemini-2.5-pro-max` ends the offer of the former's `-max` form. */
  lemma BuiltInMaxIsLost(source: ModelIdSource, models: seq<Model>, available: seq<Available>)
    requires forall m <- BUILT_IN_GEMINI :: m in models
    requires HasDual(source, ConvertAll(available), "gemini-2.5-pro")
    requires !HasId(source, ConvertAll(available), "gemini-2.5-pro-max")
    ensures var x, u := Created(source, models), Update(Truncate, false, available);
      var y := Applied(source, x, u);
      && !IsQuiet(source, x, u)
      && Offers(source, y.models, "gemini-2.5-pro-max") && "gemini-2.5-pro-max" !in y.cachedIds
  {
    GeminiNames(source);
    NamesakeIsLost(source, models, available, "gemini-2.5-pro");
  }

  lemma SameModelsHaveSameIds(source: ModelIdSource, a: seq<Model>, b: seq<Model>, id: string)
    ensures SameModels(a, b) ==> (HasId(source, a, id) <==> HasId(source, b, id))
  {
    if SameModels(a, b) {
      if i :| 0 <= i < |a| && PublicId(source, a[i]) == id {
        assert SameModel(a[i], b[i]) && b[i] in b;
      }
      if i :| 0 <= i < |b| && PublicId(source, b[i]) == id {
        assert SameModel(a[i], b[i]) && a[i] in a;
      }
    }
  }

  /** The opposite direction: a model that goes takes the offer of one named like its `-max` form. */
  lemma NamesakeIsTaken(source: ModelIdSource, ids: seq<string>, older: seq<Model>, newer: seq<Model>, id: string)
    requires Exact(source, older, ids)
    requires HasId(source, older, id) && !HasId(source, newer, id)
    requires HasId(source, older, Max(id)) && HasId(source, newer, Max(id))
    ensures Offers(source, newer, Max(id)) && Max(id) !in NewCache(source, ids, older, newer)
  {
    var v := Max(id);
    var m :| m in newer && PublicId(source, m) == v;
    assert IsOffer(source, m, v);
    var r :| r in older && PublicId(source, r) == id;
    WithoutMembers(source, older, newer, r);
    RemovesExactly(v, id);
    assert AnyRemoves(source, v, Without(source, older, newer));
    CacheAfter(source, ids, older, newer, v);
    if a :| a in Without(source, newer, older) && IsOffer(source, a, v) {
      WithoutMembers(source, newer, older, a);
      OnlyMaxForm(PublicId(source, a), id);
      assert false;
    }
  }

  // ----- A fetch that only changes modes

  lemma SameIdsSameOffers(source: ModelIdSource, a: seq<Model>, b: seq<Model>, v: string)
    requires SameModels(a, b) && FlagsAgree(source, a, b) && Offers(source, a, v)
    ensures Offers(source, b, v)
  {
    var m :| m in a && IsOffer(source, m, v);
    var id := PublicId(source, m);
    SameModelsHaveSameIds(source, a, b, id);
    if IsDual(m) {
      assert HasDual(source, a, id);
      var d :| d in b && PublicId(source, d) == id && IsDual(d);
      assert IsOffer(source, d, v);
    } else {
      var d :| d in b && PublicId(source, d) == id;
      assert IsOffer(source, d, v);
    }
  }

  /** A fetch whose models have the ids of the list is taken for the same list, so its modes are
      not heard: with bare ids, the offers are those of the fetched models precisely when no id
      has changed between one mode and both. */
  lemma ModeChangeIsNotHeard(source: ModelIdSource, x: Index, throttled: bool, available: seq<Available>)
    requires available != [] && SameModels(x.models, ConvertAll(available))
    requires AllBare(source, x.models) && Exact(source, x.models, x.cachedIds)
    ensures var y := Applied(source, x, Update(Truncate, throttled, available));
      Exact(source, ConvertAll(available), y.cachedIds) <==> FlagsAgree(source, x.models, ConvertAll(available))
  {
    var older, newer := x.models, ConvertAll(available);
    forall m <- newer ensures IsBare(PublicId(source, m)) {
      SameModelsHaveSameIds(source, older, newer, PublicId(source, m));
    }
    if FlagsAgree(source, older, newer) {
      forall v ensures Offers(source, older, v) <==> Offers(source, newer, v) {
        if Offers(source, older, v) {
          SameIdsSameOffers(source, older, newer, v);
        }
        if Offers(source, newer, v) {
          forall m <- newer ensures HasId(source, older, PublicId(source, m)) {
            SameModelsHaveSameIds(source, older, newer, PublicId(source, m));
          }
          assert FlagsAgree(source, newer, older);
          SameIdsSameOffers(source, newer, older, v);
        }
      }
    } else {
      var m :| m in older && HasId(source, newer, PublicId(source, m)) &&
        HasDual(source, older, PublicId(source, m)) != HasDual(source, newer, PublicId(source, m));
      var id := PublicId(source, m);
      StemOfForms(id);
      OffersOfStem(source, older, Max(id));
      OffersOfStem(source, newer, Max(id));
      assert |Max(id)| != |id| && |Max(id)| != |Online(id)|;
    }
  }
}
