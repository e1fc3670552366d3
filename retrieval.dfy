/**
 * The handler's generic object-retrieval engine (`_get_objects` and the private
 * helpers it dispatches to): one filtered lookup per search group unioned without
 * duplicates, or one unfiltered lookup narrowed on the client side for types whose
 * server-side filters are broken, followed by the cardinality check.
 *
 * The session's GetObject call is the parameter `find`, an arbitrary function from
 * the request to the server's response; building a cache-filter list from a search
 * group is the parameter `build`.
 */
module Retrieval {
  import opened Errors
  import opened SeqUtil

  /** A retrieved object: each attribute it has, rendered with `str()`. */
  datatype Obj = Obj(fields: map<string, string>)

  /** A list class and the class of its items (`class_list` and its `_LIST_TYPE`). */
  datatype ObjectType = ObjectType(listName: string, itemName: string)

  /** One (field, value) constraint of a search group; the value already rendered with `str()`. */
  datatype Subspec = Subspec(field: string, value: string)

  /** A server-side cache filter; `value` is None when the filter has none. */
  datatype CacheFilter = CacheFilter(field: string, value: Option<string>)

  /** The object a GetObject request is issued for: a list object holding items, or a bare item. */
  datatype ReqObj = ListObj(typeName: string, items: seq<Obj>) | SingleObj(typeName: string)

  datatype Request = Request(obj: ReqObj, cacheFilters: Option<seq<CacheFilter>>, includeHiddenFlag: int)

  /** The server answers with a list object or with one bare object. */
  datatype Response = ListResponse(items: seq<Obj>) | SingleResponse(item: Obj)

  /** `limit_min`, `limit_max` and `limit_exact`; None when the keyword is absent. */
  datatype Limits = Limits(min: Option<int>, max: Option<int>, exact: Option<int>)

  /** What `_get_objects` returns: the list, or its only item when `limit_exact` is 1. */
  datatype Found = Items(items: seq<Obj>) | Single(item: Obj)

  /** The keyword arguments `_get_objects` acts on. */
  datatype Query = Query(
    objType: ObjectType,
    searchSpecs: seq<seq<Subspec>>,
    fixitSingle: bool,
    fixitGroupId: bool,
    fixitBrokenFilter: bool,
    cacheFilters: Option<seq<CacheFilter>>,
    includeHiddenFlag: Option<int>,
    limits: Limits)

  /** A response that is not a list is handled as a list of one. */
  function AsList(resp: Response): seq<Obj> {
    match resp
    case ListResponse(xs) => xs
    case SingleResponse(o) => [o]
  }

  // ---------------------------------------------------------------------------
  // Request reshaping for server defects

  /** `_fixit_single`: the bare item class instead of the list class when the flag is set. */
  function FixitSingle(t: ObjectType, fixit: bool): ReqObj {
    if fixit then SingleObj(t.itemName) else ListObj(t.listName, [])
  }

  predicate IsIdFilter(cf: CacheFilter) {
    cf.field == "id" && cf.value.Some?
  }

  predicate HasIdFilter(cfs: seq<CacheFilter>) {
    exists i :: 0 <= i < |cfs| && IsIdFilter(cfs[i])
  }

  /** A group object that carries only its id. */
  function GroupWithId(v: string): Obj {
    Obj(map["id" := v])
  }

  /** One group object per id filter that has a value, in the order of the filters. */
  function IdGroups(cfs: seq<CacheFilter>): (gs: seq<Obj>)
    ensures |gs| <= |cfs|
    ensures gs == [] <==> forall i :: 0 <= i < |cfs| ==> !IsIdFilter(cfs[i])
    ensures forall g :: g in gs <==>
      exists i :: 0 <= i < |cfs| && IsIdFilter(cfs[i]) && g == GroupWithId(cfs[i].value.value)
    decreases |cfs|
  {
    if cfs == [] then []
    else
      var init, cf := cfs[..|cfs| - 1], cfs[|cfs| - 1];
      assert forall i :: 0 <= i < |init| ==> init[i] == cfs[i];
      if IsIdFilter(cf) then IdGroups(init) + [GroupWithId(cf.value.value)] else IdGroups(init)
  }

  /** `ids` lists, in increasing order, exactly the positions of the id filters that have a value. */
  predicate IdPositions(cfs: seq<CacheFilter>, ids: seq<int>) {
    && Increasing(ids)
    && (forall k :: 0 <= k < |ids| ==> 0 <= ids[k] < |cfs| && IsIdFilter(cfs[ids[k]]))
    && (forall i :: 0 <= i < |cfs| && IsIdFilter(cfs[i]) ==> i in ids)
  }

  /**
   * The groups follow the id filters one to one and in order: the k-th group carries
   * the value of the k-th id filter, even when two filters carry the same value.
   */
  lemma IdGroupsInOrder(cfs: seq<CacheFilter>)
    ensures exists ids :: && IdPositions(cfs, ids) && |ids| == |IdGroups(cfs)|
                          && forall k :: 0 <= k < |ids| ==> IdGroups(cfs)[k] == GroupWithId(cfs[ids[k]].value.value)
  {
    var ids := IdGroupsPositions(cfs);
  }

  lemma {:induction false} IdGroupsPositions(cfs: seq<CacheFilter>) returns (ids: seq<int>)
    ensures IdPositions(cfs, ids) && |ids| == |IdGroups(cfs)|
    ensures forall k :: 0 <= k < |ids| ==> IdGroups(cfs)[k] == GroupWithId(cfs[ids[k]].value.value)
    decreases |cfs|
  {
    if cfs == [] {
      return [];
    }
    var n := |cfs| - 1;
    var init := cfs[..n];
    var prev := IdGroupsPositions(init);
    if IsIdFilter(cfs[n]) {
      ids := prev + [n];
      IdPositionsSnoc(cfs, prev);
      var gs := IdGroups(cfs);
      assert gs == IdGroups(init) + [GroupWithId(cfs[n].value.value)];
      forall k | 0 <= k < |ids|
        ensures gs[k] == GroupWithId(cfs[ids[k]].value.value)
      {
        if k < |prev| {
          assert gs[k] == IdGroups(init)[k];
          assert cfs[prev[k]] == init[prev[k]];
        }
      }
    } else {
      ids := prev;
      IdPositionsSkip(cfs, prev);
      forall k | 0 <= k < |ids|
        ensures IdGroups(cfs)[k] == GroupWithId(cfs[ids[k]].value.value)
      {
        assert cfs[prev[k]] == init[prev[k]];
      }
    }
  }

  /** The positions of a prefix, extended by a last filter that is an id filter. */
  lemma IdPositionsSnoc(cfs: seq<CacheFilter>, prev: seq<int>)
    requires cfs != [] && IsIdFilter(cfs[|cfs| - 1])
    requires IdPositions(cfs[..|cfs| - 1], prev)
    ensures IdPositions(cfs, prev + [|cfs| - 1])
  {
    var n, ids := |cfs| - 1, prev + [|cfs| - 1];
    forall k | 0 <= k < |prev|
      ensures 0 <= ids[k] < n && IsIdFilter(cfs[ids[k]])
    {
      assert cfs[..n][prev[k]] == cfs[prev[k]];
    }
    forall i | 0 <= i < |cfs| && IsIdFilter(cfs[i])
      ensures i in ids
    {
      if i < n {
        assert cfs[..n][i] == cfs[i];
        assert i in prev;
        var k :| 0 <= k < |prev| && prev[k] == i;
        assert ids[k] == i;
      } else {
        assert ids[|prev|] == i;
      }
    }
  }

  /** The positions of a prefix, when the last filter is not an id filter. */
  lemma IdPositionsSkip(cfs: seq<CacheFilter>, prev: seq<int>)
    requires cfs != [] && !IsIdFilter(cfs[|cfs| - 1])
    requires IdPositions(cfs[..|cfs| - 1], prev)
    ensures IdPositions(cfs, prev)
  {
    var n := |cfs| - 1;
    forall k | 0 <= k < |prev|
      ensures 0 <= prev[k] < |cfs| && IsIdFilter(cfs[prev[k]])
    {
      assert cfs[..n][prev[k]] == cfs[prev[k]];
    }
    forall i | 0 <= i < |cfs| && IsIdFilter(cfs[i])
      ensures i in prev
    {
      assert cfs[..n][i] == cfs[i];
    }
  }

  /** The request as `_fixit_group_id` leaves it. */
  function GroupIdShaped(req: Request, fixit: bool, t: ObjectType): Request {
    if !fixit then req
    else
      var gs := IdGroups(req.cacheFilters.GetOr([]));
      req.(obj := ListObj(t.listName, gs), cacheFilters := if gs != [] then None else req.cacheFilters)
  }

  /**
   * `_fixit_group_id`: with the flag set, every id filter that has a value becomes a
   * group object in the request's list, and the cache filters are dropped as soon as
   * one such filter exists; without the flag the request is left as it is.
   */
  method FixitGroupId(req: Request, fixit: bool, t: ObjectType) returns (out: Request)
    ensures !fixit ==> out == req
    ensures fixit ==> out.obj == ListObj(t.listName, IdGroups(req.cacheFilters.GetOr([])))
    ensures fixit ==> out.cacheFilters == if HasIdFilter(req.cacheFilters.GetOr([])) then None else req.cacheFilters
    ensures out.includeHiddenFlag == req.includeHiddenFlag
  {
    if !fixit {
      return req;
    }
    var cfs := req.cacheFilters.GetOr([]);
    var listObj: seq<Obj> := [];
    var removeCfs := false;
    for i := 0 to |cfs|
      invariant listObj == IdGroups(cfs[..i])
      invariant removeCfs <==> HasIdFilter(cfs[..i])
    {
      assert cfs[..i + 1][..i] == cfs[..i];
      if cfs[i].field == "id" && cfs[i].value.Some? {
        removeCfs := true;
        listObj := listObj + [GroupWithId(cfs[i].value.value)];
      }
    }
    assert cfs[..|cfs|] == cfs;
    out := req.(obj := ListObj(t.listName, listObj));
    if removeCfs {
      out := out.(cacheFilters := None);
    }
  }

  /** The request `_find` hands to the session for the given cache filters. */
  function FindRequest(q: Query, cacheFilters: Option<seq<CacheFilter>>): Request {
    var base := Request(FixitSingle(q.objType, q.fixitSingle), cacheFilters, q.includeHiddenFlag.GetOr(0));
    if cacheFilters.Some? && cacheFilters.value != [] then GroupIdShaped(base, q.fixitGroupId, q.objType)
    else base
  }

  /** `_find`: shape the request, then ask the session. */
  method Find(q: Query, cacheFilters: Option<seq<CacheFilter>>, find: Request -> Response)
    returns (resp: Response)
    ensures resp == find(FindRequest(q, cacheFilters))
  {
    var req := Request(FixitSingle(q.objType, q.fixitSingle), cacheFilters, q.includeHiddenFlag.GetOr(0));
    if cacheFilters.Some? && cacheFilters.value != [] {
      req := FixitGroupId(req, q.fixitGroupId, q.objType);
    }
    resp := find(req);
  }

  /**
   * What the session is asked for. The group-id fix, when it applies, overrides the
   * single-object fix; with an id filter it sends no cache filters at all.
   */
  lemma FindRequestShape(q: Query, cfs: seq<CacheFilter>)
    ensures var req := FindRequest(q, Some(cfs));
      && req.includeHiddenFlag == q.includeHiddenFlag.GetOr(0)
      && (q.fixitGroupId && cfs != [] ==> req.obj == ListObj(q.objType.listName, IdGroups(cfs)))
      && (q.fixitGroupId && HasIdFilter(cfs) ==> req.cacheFilters == None)
      && (!(q.fixitGroupId && cfs != []) ==>
            req.cacheFilters == Some(cfs)
            && (req.obj.SingleObj? <==> q.fixitSingle)
            && (req.obj.ListObj? ==> req.obj.items == []))
  {
  }

  /** The handler's "append each one unless it is already there" loop. */
  method AppendNew(acc: seq<Obj>, xs: seq<Obj>) returns (r: seq<Obj>)
    ensures r == AddNew(acc, xs)
  {
    r := acc;
    for k := 0 to |xs|
      invariant r == AddNew(acc, xs[..k])
    {
      assert xs[..k + 1][..k] == xs[..k];
      if xs[k] !in r {
        r := r + [xs[k]];
      }
    }
    assert xs[..|xs|] == xs;
  }

  // ---------------------------------------------------------------------------
  // Filtered path

  /** The list each search group's lookup returns, in the order of the groups. */
  function GroupResults(q: Query, build: seq<Subspec> -> seq<CacheFilter>, find: Request -> Response)
    : (rs: seq<seq<Obj>>)
    ensures |rs| == |q.searchSpecs|
  {
    seq(|q.searchSpecs|, i requires 0 <= i < |q.searchSpecs| =>
      AsList(find(FindRequest(q, Some(build(q.searchSpecs[i]))))))
  }

  /**
   * `_find_filter`: one lookup per search group; the objects of every lookup are
   * appended unless an equal object is already in the result.
   */
  method FindFilter(q: Query, build: seq<Subspec> -> seq<CacheFilter>, find: Request -> Response)
    returns (result: seq<Obj>)
    ensures result == UnionAll(GroupResults(q, build, find))
  {
    ghost var groups := GroupResults(q, build, find);
    var specs := q.searchSpecs;
    result := [];
    for i := 0 to |specs|
      invariant result == UnionAll(groups[..i])
    {
      var cfResult := Find(q, Some(build(specs[i])), find);
      assert AsList(cfResult) == groups[i];
      result := AppendNew(result, AsList(cfResult));
      UnionAllStep(groups, i);
    }
    assert groups[..|specs|] == groups;
  }

  // ---------------------------------------------------------------------------
  // Unfiltered path: client-side narrowing for broken cache filters

  /** `str(getattr(r, field)) == str(value)`, when `r` has the attribute. */
  predicate MatchOk(r: Obj, s: Subspec) {
    s.field in r.fields && r.fields[s.field] == s.value
  }

  predicate AllHave(result: seq<Obj>, field: string) {
    forall k :: 0 <= k < |result| ==> field in result[k].fields
  }

  /** `[r for r in result if str(getattr(r, field)) == str(value)]`. */
  function MatchesOf(result: seq<Obj>, s: Subspec): (ms: seq<Obj>)
    requires AllHave(result, s.field)
    ensures forall x :: x in ms <==> x in result && MatchOk(x, s)
    decreases |result|
  {
    if result == [] then []
    else
      var init := result[..|result| - 1];
      var last := result[|result| - 1];
      assert result == init + [last];
      if MatchOk(last, s) then MatchesOf(init, s) + [last] else MatchesOf(init, s)
  }

  /**
   * Narrowing by the subspecs taken one at a time: each one's matches are appended
   * unless already present; the first subspec naming an attribute that some object
   * lacks raises.
   */
  function Sweep(result: seq<Obj>, subs: seq<Subspec>): Result<seq<Obj>>
    decreases |subs|
  {
    if subs == [] then Ok([])
    else SweepOne(result, Sweep(result, subs[..|subs| - 1]), subs[|subs| - 1])
  }

  /** One subspec of the sweep, continuing from what the earlier ones gave. */
  function SweepOne(result: seq<Obj>, prev: Result<seq<Obj>>, s: Subspec): Result<seq<Obj>> {
    match prev
    case Err(e) => Err(e)
    case Ok(acc) =>
      if AllHave(result, s.field) then Ok(AddNew(acc, MatchesOf(result, s)))
      else Err(AttributeError(s.field))
  }

  /**
   * The sweep raises exactly when some subspec names an attribute some object lacks,
   * and then with the first such subspec's attribute; otherwise it returns, each once,
   * the objects that match at least one subspec.
   */
  lemma SweepMeaning(result: seq<Obj>, subs: seq<Subspec>)
    ensures var r := Sweep(result, subs);
      && (r.Err? <==> exists k :: 0 <= k < |subs| && !AllHave(result, subs[k].field))
      && (r.Err? ==>
            exists k :: && 0 <= k < |subs|
                        && r.error == AttributeError(subs[k].field)
                        && !AllHave(result, subs[k].field)
                        && (forall k' :: 0 <= k' < k ==> AllHave(result, subs[k'].field)))
      && (r.Ok? ==> NoDup(r.value))
      && (r.Ok? ==> forall x :: x in r.value <==> x in result && exists k :: 0 <= k < |subs| && MatchOk(x, subs[k]))
  {
    SweepErrMeaning(result, subs);
    SweepOkMeaning(result, subs);
  }

  /** The error half of `SweepMeaning`. */
  lemma {:induction false} SweepErrMeaning(result: seq<Obj>, subs: seq<Subspec>)
    ensures var r := Sweep(result, subs);
      && (r.Err? <==> exists k :: 0 <= k < |subs| && !AllHave(result, subs[k].field))
      && (r.Err? ==>
            exists k :: && 0 <= k < |subs|
                        && r.error == AttributeError(subs[k].field)
                        && !AllHave(result, subs[k].field)
                        && (forall k' :: 0 <= k' < k ==> AllHave(result, subs[k'].field)))
    decreases |subs|
  {
    if subs != [] {
      var init, s := subs[..|subs| - 1], subs[|subs| - 1];
      SweepErrMeaning(result, init);
      assert forall k :: 0 <= k < |init| ==> init[k] == subs[k];
      var prev := Sweep(result, init);
      assert Sweep(result, subs) == SweepOne(result, prev, s);
      if prev.Err? {
        assert Sweep(result, subs) == prev;
      } else if !AllHave(result, s.field) {
        assert forall k' :: 0 <= k' < |init| ==> AllHave(result, subs[k'].field);
        assert Sweep(result, subs) == Err(AttributeError(subs[|init|].field));
      }
    }
  }

  /** The success half of `SweepMeaning`. */
  lemma {:induction false} SweepOkMeaning(result: seq<Obj>, subs: seq<Subspec>)
    ensures var r := Sweep(result, subs);
      && (r.Ok? ==> NoDup(r.value))
      && (r.Ok? ==> forall x :: x in r.value <==> x in result && exists k :: 0 <= k < |subs| && MatchOk(x, subs[k]))
    decreases |subs|
  {
    if subs != [] {
      var init, s := subs[..|subs| - 1], subs[|subs| - 1];
      SweepOkMeaning(result, init);
      var prev := Sweep(result, init);
      assert Sweep(result, subs) == SweepOne(result, prev, s);
      if prev.Ok? && AllHave(result, s.field) {
        assert subs == init + [s];
        SweepOkStep(result, init, s, prev.value);
      }
    }
  }

  /** A sweep that has not raised, extended by a subspec every object has. */
  lemma SweepOkStep(result: seq<Obj>, init: seq<Subspec>, s: Subspec, acc: seq<Obj>)
    requires AllHave(result, s.field)
    requires NoDup(acc)
    requires forall x :: x in acc <==> x in result && exists k :: 0 <= k < |init| && MatchOk(x, init[k])
    ensures var subs := init + [s];
      && NoDup(AddNew(acc, MatchesOf(result, s)))
      && forall x :: x in AddNew(acc, MatchesOf(result, s)) <==>
           x in result && exists k :: 0 <= k < |subs| && MatchOk(x, subs[k])
  {
    var subs := init + [s];
    assert subs[|init|] == s;
    forall x
      ensures (exists k :: 0 <= k < |subs| && MatchOk(x, subs[k])) <==>
              (exists k :: 0 <= k < |init| && MatchOk(x, init[k])) || MatchOk(x, s)
    {
      if exists k :: 0 <= k < |subs| && MatchOk(x, subs[k]) {
        var k :| 0 <= k < |subs| && MatchOk(x, subs[k]);
        if k < |init| {
          assert subs[k] == init[k];
        }
      }
      if exists k :: 0 <= k < |init| && MatchOk(x, init[k]) {
        var k :| 0 <= k < |init| && MatchOk(x, init[k]);
        assert subs[k] == init[k];
      }
    }
  }

  /** What `_fixit_broken_filter` returns. */
  function BrokenFilter(result: seq<Obj>, specs: seq<seq<Subspec>>, fixit: bool): Result<seq<Obj>> {
    if fixit then Sweep(result, Flatten(specs)) else Ok(result)
  }

  lemma {:induction false} FlattenConcat<T>(a: seq<seq<T>>, b: seq<seq<T>>)
    ensures Flatten(a + b) == Flatten(a) + Flatten(b)
    decreases |b|
  {
    if b != [] {
      var ab := a + b;
      assert ab[..|ab| - 1] == a + b[..|b| - 1];
      FlattenConcat(a, b[..|b| - 1]);
    } else {
      assert a + b == a;
    }
  }

  /** Once the sweep has raised, sweeping further subspecs raises the same error. */
  lemma {:induction false} SweepErrSticks(result: seq<Obj>, a: seq<Subspec>, b: seq<Subspec>)
    requires Sweep(result, a).Err?
    ensures Sweep(result, a + b) == Sweep(result, a)
    decreases |b|
  {
    if b == [] {
      assert a + b == a;
    } else {
      var ab := a + b;
      assert ab[..|ab| - 1] == a + b[..|b| - 1];
      SweepErrSticks(result, a, b[..|b| - 1]);
      assert Sweep(result, ab[..|ab| - 1]).Err?;
    }
  }

  /** Sweeping one more subspec. */
  lemma SweepStep(result: seq<Obj>, done: seq<Subspec>, s: Subspec)
    ensures Sweep(result, done + [s]) == SweepOne(result, Sweep(result, done), s)
  {
    assert (done + [s])[..|done|] == done;
  }

  /** Flattening one more group appends that group. */
  lemma FlattenPrefixStep<T>(specs: seq<seq<T>>, i: nat)
    requires i < |specs|
    ensures Flatten(specs[..i + 1]) == Flatten(specs[..i]) + specs[i]
  {
    assert specs[..i + 1][..i] == specs[..i];
  }

  /** A sweep that raises within the first `i + 1` groups raises the same error over all groups. */
  lemma SweepFailsIn(result: seq<Obj>, specs: seq<seq<Subspec>>, i: nat)
    requires i < |specs|
    requires Sweep(result, Flatten(specs[..i + 1])).Err?
    ensures Sweep(result, Flatten(specs)) == Sweep(result, Flatten(specs[..i + 1]))
  {
    assert specs == specs[..i + 1] + specs[i + 1..];
    FlattenConcat(specs[..i + 1], specs[i + 1..]);
    SweepErrSticks(result, Flatten(specs[..i + 1]), Flatten(specs[i + 1..]));
  }

  /** One subspec of a group: it either extends the collected matches or raises for the whole group. */
  lemma SweepGroupStep(result: seq<Obj>, done: seq<Subspec>, subspecs: seq<Subspec>, j: nat, acc: seq<Obj>)
    requires j < |subspecs|
    requires Sweep(result, done + subspecs[..j]) == Ok(acc)
    ensures AllHave(result, subspecs[j].field) ==>
      Sweep(result, done + subspecs[..j + 1]) == Ok(AddNew(acc, MatchesOf(result, subspecs[j])))
    ensures !AllHave(result, subspecs[j].field) ==>
      Sweep(result, done + subspecs) == Err(AttributeError(subspecs[j].field))
  {
    var s := subspecs[j];
    PrefixSplit(done, subspecs, j);
    SweepStep(result, done + subspecs[..j], s);
    if !AllHave(result, s.field) {
      SweepErrSticks(result, done + subspecs[..j + 1], subspecs[j + 1..]);
    }
  }

  /** A prefix grows by one element, and prefix and suffix make up the whole. */
  lemma PrefixSplit<T>(done: seq<T>, xs: seq<T>, j: nat)
    requires j < |xs|
    ensures done + xs[..j + 1] == done + xs[..j] + [xs[j]]
    ensures done + xs[..j + 1] + xs[j + 1..] == done + xs
  {
    assert xs[..j + 1] == xs[..j] + [xs[j]];
    assert xs[..j + 1] + xs[j + 1..] == xs;
  }

  /**
   * The inner loop of `_fixit_broken_filter` over one group's subspecs, continuing a
   * sweep of `done` that has collected `acc`.
   */
  method SweepGroup(result: seq<Obj>, ghost done: seq<Subspec>, subspecs: seq<Subspec>, acc: seq<Obj>)
    returns (r: Result<seq<Obj>>)
    requires Sweep(result, done) == Ok(acc)
    ensures r == Sweep(result, done + subspecs)
  {
    var newResult := acc;
    assert done + subspecs[..0] == done;
    for j := 0 to |subspecs|
      invariant Sweep(result, done + subspecs[..j]) == Ok(newResult)
    {
      var s := subspecs[j];
      SweepGroupStep(result, done, subspecs, j, newResult);
      if !AllHave(result, s.field) {
        return Err(AttributeError(s.field));
      }
      var matches := MatchesOf(result, s);
      newResult := AppendNew(newResult, matches);
    }
    assert subspecs[..|subspecs|] == subspecs;
    r := Ok(newResult);
  }

  /**
   * `_fixit_broken_filter`: with the flag set, keeps the fetched objects that match
   * at least one (field, value) of any group, each once; without it, returns the
   * fetched objects unchanged.
   */
  method FixitBrokenFilter(result: seq<Obj>, specs: seq<seq<Subspec>>, fixit: bool)
    returns (r: Result<seq<Obj>>)
    ensures r == BrokenFilter(result, specs, fixit)
  {
    if !fixit {
      return Ok(result);
    }
    var newResult: seq<Obj> := [];
    for i := 0 to |specs|
      invariant Sweep(result, Flatten(specs[..i])) == Ok(newResult)
    {
      var g := SweepGroup(result, Flatten(specs[..i]), specs[i], newResult);
      FlattenPrefixStep(specs, i);
      if g.Err? {
        SweepFailsIn(result, specs, i);
        return g;
      }
      newResult := g.value;
    }
    assert specs[..|specs|] == specs;
    r := Ok(newResult);
  }

  // ---------------------------------------------------------------------------
  // Cardinality check

  const Kinds: seq<LimitKind> := [LimitMin, LimitMax, LimitExact]

  function Bound(l: Limits, k: LimitKind): Option<int> {
    match k
    case LimitMin => l.min
    case LimitMax => l.max
    case LimitExact => l.exact
  }

  /** `len(result) >= v`, `len(result) <= v`, `len(result) == v`. */
  predicate Holds(k: LimitKind, n: int, v: int) {
    match k
    case LimitMin => n >= v
    case LimitMax => n <= v
    case LimitExact => n == v
  }

  /** The message the check records for one limit. */
  function Evaluate(l: Limits, k: LimitKind, n: int): LimitNote {
    match Bound(l, k)
    case None => Skipped(k)
    case Some(v) => if Holds(k, n, v) then Passed(k, v) else Failed(k, v)
  }

  /** The messages of the first `m` limits, in order. */
  function Notes(l: Limits, n: int, m: nat): seq<LimitNote>
    requires m <= 3
  {
    seq(m, i requires 0 <= i < m => Evaluate(l, Kinds[i], n))
  }

  /** Position of the first failing limit in `Kinds`, or 3 when none fails. */
  function FirstFailure(l: Limits, n: int): nat {
    if Evaluate(l, LimitMin, n).Failed? then 0
    else if Evaluate(l, LimitMax, n).Failed? then 1
    else if Evaluate(l, LimitExact, n).Failed? then 2
    else 3
  }

  function LimitsOutcome(l: Limits, items: seq<Obj>): Result<Found> {
    var k := FirstFailure(l, |items|);
    if k < 3 then Err(CheckLimitError(Notes(l, |items|, k + 1)))
    else if l.exact == Some(1) && |items| == 1 then Ok(Single(items[0]))
    else Ok(Items(items))
  }

  /** Every limit that is given holds of `n`. */
  predicate WithinLimits(l: Limits, n: int) {
    && (l.min.Some? ==> n >= l.min.value)
    && (l.max.Some? ==> n <= l.max.value)
    && (l.exact.Some? ==> n == l.exact.value)
  }

  /**
   * The limit check succeeds exactly when every given limit holds; on success it
   * returns the list itself, except that `limit_exact == 1` on one item returns the
   * item; on failure the error lists the limits in order up to the first failing one,
   * which is the last message, and no earlier limit failed.
   */
  lemma LimitsOutcomeMeaning(l: Limits, items: seq<Obj>)
    ensures LimitsOutcome(l, items).Ok? <==> WithinLimits(l, |items|)
    ensures LimitsOutcome(l, items).Ok? ==>
      LimitsOutcome(l, items).value ==
        if l.exact == Some(1) && |items| == 1 then Single(items[0]) else Items(items)
    ensures LimitsOutcome(l, items).Err? ==>
      var notes := LimitsOutcome(l, items).error.notes;
      && 1 <= |notes| <= 3
      && notes[|notes| - 1].Failed?
      && (forall i :: 0 <= i < |notes| - 1 ==> !notes[i].Failed?)
      && (forall i :: 0 <= i < |notes| ==> notes[i].kind == Kinds[i])
  {
  }

  /** `limit_exact == 1` either fails or yields the one item itself. */
  lemma ExactOneCollapses(l: Limits, items: seq<Obj>)
    requires l.exact == Some(1)
    ensures LimitsOutcome(l, items).Ok? <==> |items| == 1 && WithinLimits(l, 1)
    ensures LimitsOutcome(l, items).Ok? ==> LimitsOutcome(l, items) == Ok(Single(items[0]))
    ensures |items| != 1 && l.min.None? && l.max.None? ==>
      LimitsOutcome(l, items) == Err(CheckLimitError([Skipped(LimitMin), Skipped(LimitMax), Failed(LimitExact, 1)]))
  {
    LimitsOutcomeMeaning(l, items);
    if |items| != 1 && l.min.None? && l.max.None? {
      assert Notes(l, |items|, 3) == [Skipped(LimitMin), Skipped(LimitMax), Failed(LimitExact, 1)];
    }
  }

  /**
   * `_check_limits`: evaluates `limit_min`, `limit_max` and `limit_exact` in that
   * order, skipping absent ones, and raises at the first that fails.
   */
  method CheckLimits(items: seq<Obj>, limits: Limits) returns (r: Result<Found>)
    ensures r == LimitsOutcome(limits, items)
  {
    assert Kinds[0] == LimitMin && Kinds[1] == LimitMax && Kinds[2] == LimitExact;
    var msgs: seq<LimitNote> := [];
    var result := Items(items);
    for i := 0 to 3
      invariant msgs == Notes(limits, |items|, i)
      invariant forall j :: 0 <= j < i ==> !Evaluate(limits, Kinds[j], |items|).Failed?
      invariant result == if i == 3 && limits.exact == Some(1) && |items| == 1 then Single(items[0]) else Items(items)
    {
      var kind := Kinds[i];
      var bound := Bound(limits, kind);
      if bound.None? {
        msgs := msgs + [Skipped(kind)];
        continue;
      }
      var limitValue := bound.value;
      if Holds(kind, |items|, limitValue) {
        msgs := msgs + [Passed(kind, limitValue)];
      } else {
        msgs := msgs + [Failed(kind, limitValue)];
        assert FirstFailure(limits, |items|) == i;
        assert msgs == Notes(limits, |items|, i + 1);
        return Err(CheckLimitError(msgs));
      }
      if kind == LimitExact && |items| == 1 && limitValue == 1 {
        result := Single(items[0]);
      }
    }
    r := Ok(result);
  }

  // ---------------------------------------------------------------------------
  // The engine

  /** The objects before the limit check: filtered path or unfiltered path. */
  function Retrieved(q: Query, build: seq<Subspec> -> seq<CacheFilter>, find: Request -> Response)
    : Result<seq<Obj>>
  {
    if q.searchSpecs != [] && !q.fixitBrokenFilter then Ok(UnionAll(GroupResults(q, build, find)))
    else
      var all := AsList(find(FindRequest(q, q.cacheFilters)));
      if q.searchSpecs != [] then BrokenFilter(all, q.searchSpecs, q.fixitBrokenFilter) else Ok(all)
  }

  /** No `limit_min`, `limit_max` or `limit_exact` keyword was given. */
  predicate NoLimits(l: Limits) {
    l.min.None? && l.max.None? && l.exact.None?
  }

  /**
   * The unfiltered lookup answered with one bare object and nothing narrows or counts
   * it: the limit check returns it untouched, without taking its length.
   */
  predicate BarePassThrough(q: Query, find: Request -> Response) {
    q.searchSpecs == [] && find(FindRequest(q, q.cacheFilters)).SingleResponse? && NoLimits(q.limits)
  }

  /** What `_get_objects` returns. */
  function GetObjectsOutcome(q: Query, build: seq<Subspec> -> seq<CacheFilter>, find: Request -> Response)
    : Result<Found>
  {
    if BarePassThrough(q, find) then Ok(Single(find(FindRequest(q, q.cacheFilters)).item))
    else match Retrieved(q, build, find)
      case Err(e) => Err(e)
      case Ok(items) => LimitsOutcome(q.limits, items)
  }

  /** `_get_objects`. */
  method GetObjects(q: Query, build: seq<Subspec> -> seq<CacheFilter>, find: Request -> Response)
    returns (r: Result<Found>)
    ensures r == GetObjectsOutcome(q, build, find)
  {
    var found: seq<Obj>;
    if q.searchSpecs != [] && !q.fixitBrokenFilter {
      found := FindFilter(q, build, find);
    } else {
      var resp := Find(q, q.cacheFilters, find);
      if q.searchSpecs == [] && resp.SingleResponse? && NoLimits(q.limits) {
        return Ok(Single(resp.item));
      }
      found := AsList(resp);
      if q.searchSpecs != [] {
        var narrowed := FixitBrokenFilter(found, q.searchSpecs, q.fixitBrokenFilter);
        if narrowed.Err? {
          return Err(narrowed.error);
        }
        found := narrowed.value;
      }
    }
    r := CheckLimits(found, q.limits);
  }

  /**
   * A single object rather than a list comes back only when `limit_exact` is 1 and
   * exactly one object was found, or when the unfiltered lookup itself answered with
   * that bare object and no limit was given; every other success is a list that
   * satisfies every given limit.
   */
  lemma GetObjectsShape(q: Query, build: seq<Subspec> -> seq<CacheFilter>, find: Request -> Response)
    ensures var r := GetObjectsOutcome(q, build, find);
      && (r.Ok? && r.value.Single? ==>
            || (q.limits.exact == Some(1) && Retrieved(q, build, find) == Ok([r.value.item]))
            || (BarePassThrough(q, find) && find(FindRequest(q, q.cacheFilters)) == SingleResponse(r.value.item)))
      && (r.Ok? && r.value.Items? ==> WithinLimits(q.limits, |r.value.items|))
      && (!BarePassThrough(q, find) && Retrieved(q, build, find).Ok? ==>
            (r.Ok? <==> WithinLimits(q.limits, |Retrieved(q, build, find).value|)))
  {
    if !BarePassThrough(q, find) && Retrieved(q, build, find).Ok? {
      var items := Retrieved(q, build, find).value;
      LimitsOutcomeMeaning(q.limits, items);
      if |items| == 1 {
        assert items == [items[0]];
      }
    }
  }

  /**
   * With search groups and working server-side filters, the retrieved objects are
   * those of the per-group lookups, each once, in the order first seen.
   */
  lemma FilteredPathIsFirstSeenUnion(q: Query, build: seq<Subspec> -> seq<CacheFilter>, find: Request -> Response)
    requires q.searchSpecs != [] && !q.fixitBrokenFilter
    ensures Retrieved(q, build, find) == Ok(AddNew([], Flatten(GroupResults(q, build, find))))
  {
    UnionAllFirstSeen(GroupResults(q, build, find));
  }

  /**
   * With search groups and broken server-side filters, the retrieved objects are the
   * fetched objects that match some (field, value) of some group, each once.
   */
  lemma BrokenPathKeepsMatches(q: Query, build: seq<Subspec> -> seq<CacheFilter>, find: Request -> Response,
                               x: Obj)
    requires q.searchSpecs != [] && q.fixitBrokenFilter
    requires Retrieved(q, build, find).Ok?
    ensures NoDup(Retrieved(q, build, find).value)
    ensures x in Retrieved(q, build, find).value <==>
      && x in AsList(find(FindRequest(q, q.cacheFilters)))
      && exists g, k :: 0 <= g < |q.searchSpecs| && 0 <= k < |q.searchSpecs[g]| && MatchOk(x, q.searchSpecs[g][k])
  {
    var specs := q.searchSpecs;
    SweepMeaning(AsList(find(FindRequest(q, q.cacheFilters))), Flatten(specs));
    FlattenMembers(specs);
    if x in Retrieved(q, build, find).value {
      var k :| 0 <= k < |Flatten(specs)| && MatchOk(x, Flatten(specs)[k]);
      var g, j := FlattenIndex(specs, k);
    } else {
    }
  }

  /** Every element of a flattened sequence comes from one of its parts, and back. */
  lemma {:induction false} FlattenMembers<T>(xss: seq<seq<T>>)
    ensures forall g, k :: 0 <= g < |xss| && 0 <= k < |xss[g]| ==> xss[g][k] in Flatten(xss)
    decreases |xss|
  {
    if xss != [] {
      var init := xss[..|xss| - 1];
      FlattenMembers(init);
      assert forall g :: 0 <= g < |init| ==> init[g] == xss[g];
    }
  }

  lemma {:induction false} FlattenIndex<T>(xss: seq<seq<T>>, k: nat) returns (g: nat, j: nat)
    requires k < |Flatten(xss)|
    ensures g < |xss| && j < |xss[g]| && Flatten(xss)[k] == xss[g][j]
    decreases |xss|
  {
    var init := xss[..|xss| - 1];
    if k < |Flatten(init)| {
      g, j := FlattenIndex(init, k);
    } else {
      g, j := |xss| - 1, k - |Flatten(init)|;
    }
  }
}
