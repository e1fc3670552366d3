/**
 * The schema-to-Python generator's classification of WSDL types (`WsdlParser`):
 * which complex types get a class, how a type's elements split into simple,
 * complex and list attributes, the SOAP tag of a type, and the text blocks the
 * class template is filled with. Elements are records (name, type, maxOccurs);
 * `capcase` and the template substitution are parameters.
 */
module WsdlGen {
  import opened Errors
  import opened PyStrings
  import opened SeqUtil

  /** An `xsd:element` of a complex type: its `name`, `type` and `maxOccurs` attributes. */
  datatype Element = Element(name: string, typ: string, maxOccurs: Option<string>)

  /** `EXCLUDE_TYPES`. */
  const ExcludeTypes: seq<string> := ["auth", "TaniumSOAPRequest", "TaniumSOAPResult"]

  // ---------------------------------------------------------------------------
  // find_types: sorted(set(names not excluded))

  predicate StrictlySorted(s: seq<string>) {
    forall i, j :: 0 <= i < j < |s| ==> Less(s[i], s[j])
  }

  lemma ConsSorted(h: string, t: seq<string>)
    requires StrictlySorted(t)
    requires forall y :: y in t ==> Less(h, y)
    ensures StrictlySorted([h] + t)
  {
    var s := [h] + t;
    forall i, j | 0 <= i < j < |s|
      ensures Less(s[i], s[j])
    {
      assert s[j] == t[j - 1];
      if i == 0 {
        assert t[j - 1] in t;
      } else {
        assert s[i] == t[i - 1];
      }
    }
  }

  /** Adds `x` to a strictly sorted list, keeping it strictly sorted. */
  function Insert(s: seq<string>, x: string): (r: seq<string>)
    requires StrictlySorted(s)
    ensures StrictlySorted(r)
    ensures forall y :: y in r <==> y in s || y == x
    decreases |s|
  {
    if s == [] then [x]
    else if x == s[0] then s
    else if Less(x, s[0]) then
      assert forall y :: y in s ==> Less(x, y) by {
        forall y | y in s
          ensures Less(x, y)
        {
          if y != s[0] {
            var k :| 0 <= k < |s| && s[k] == y;
            LessTransitive(x, s[0], y);
          }
        }
      }
      ConsSorted(x, s);
      [x] + s
    else
      LessTotal(x, s[0]);
      var t := Insert(s[1..], x);
      assert forall y :: y in s[1..] ==> Less(s[0], y) by {
        forall y | y in s[1..]
          ensures Less(s[0], y)
        {
          var k :| 0 <= k < |s[1..]| && s[1..][k] == y;
          assert s[k + 1] == y;
        }
      }
      ConsSorted(s[0], t);
      assert s == [s[0]] + s[1..];
      [s[0]] + t
  }

  /** `find_types`: the complex-type names, without the excluded ones, sorted, each once. */
  function FindTypes(names: seq<string>): (r: seq<string>)
    ensures StrictlySorted(r)
    ensures forall x :: x in r <==> x in names && x !in ExcludeTypes
    decreases |names|
  {
    if names == [] then []
    else
      var init, last := names[..|names| - 1], names[|names| - 1];
      assert names == init + [last];
      var rest := FindTypes(init);
      if last in ExcludeTypes then rest else Insert(rest, last)
  }

  /** A strictly sorted list never holds the same name twice. */
  lemma StrictlySortedNoDup(s: seq<string>)
    requires StrictlySorted(s)
    ensures forall i, j :: 0 <= i < j < |s| ==> s[i] != s[j]
  {
    forall i, j | 0 <= i < j < |s|
      ensures s[i] != s[j]
    {
      LessIrreflexive(s[i]);
    }
  }

  /** Every member of a strictly sorted list is its head or above it. */
  lemma HeadIsLeast(s: seq<string>, x: string)
    requires StrictlySorted(s) && x in s
    ensures x == s[0] || Less(s[0], x)
  {
  }

  /** There is only one strictly sorted list of a given set of names. */
  lemma {:induction false} SortedUnique(a: seq<string>, b: seq<string>)
    requires StrictlySorted(a) && StrictlySorted(b)
    requires forall x :: x in a <==> x in b
    ensures a == b
    decreases |a|
  {
    if b != [] {
      assert b[0] in a;
    }
    if a != [] {
      assert a[0] in b;
    }
    if a != [] && b != [] {
      var h1, h2 := a[0], b[0];
      HeadIsLeast(a, h2);
      HeadIsLeast(b, h1);
      if Less(h1, h2) {
        LessAsymmetric(h1, h2);
      }
      LessIrreflexive(h1);
      assert h1 == h2;
      forall x
        ensures x in a[1..] <==> x in b[1..]
      {
        if x in a[1..] {
          var i :| 0 <= i < |a[1..]| && a[1..][i] == x;
          assert a[i + 1] == x && Less(a[0], x);
          assert x in b && x != b[0];
          assert b == [b[0]] + b[1..];
        }
        if x in b[1..] {
          var i :| 0 <= i < |b[1..]| && b[1..][i] == x;
          assert b[i + 1] == x && Less(b[0], x);
          assert x in a && x != a[0];
          assert a == [a[0]] + a[1..];
        }
      }
      SortedUnique(a[1..], b[1..]);
      assert a == [a[0]] + a[1..] && b == [b[0]] + b[1..];
    }
  }

  /**
   * `find_types` is `sorted(set(...))`: any strictly sorted list of exactly the kept
   * names is its result.
   */
  lemma FindTypesIsSortedSet(names: seq<string>, s: seq<string>)
    requires StrictlySorted(s)
    requires forall x :: x in s <==> x in names && x !in ExcludeTypes
    ensures FindTypes(names) == s
  {
    SortedUnique(FindTypes(names), s);
  }

  // ---------------------------------------------------------------------------
  // Attribute classification

  predicate IsListEl(e: Element) {
    e.maxOccurs == Some("unbounded")
  }

  /** The filter of `get_simpleattrs`. */
  predicate IsSimpleEl(e: Element) {
    StartsWith(e.typ, "xsd:") && e.maxOccurs != Some("unbounded")
  }

  /** The filter of `get_complexattrs`. */
  predicate IsComplexEl(e: Element) {
    !StartsWith(e.typ, "xsd:") && !(e.maxOccurs == Some("unbounded"))
  }

  /** `[x for x in els if keep(x)]`. */
  function Filter(els: seq<Element>, keep: Element -> bool): (r: seq<Element>)
    ensures |r| <= |els|
    ensures forall e :: e in r <==> e in els && keep(e)
    decreases |els|
  {
    if els == [] then []
    else
      var init, last := els[..|els| - 1], els[|els| - 1];
      assert els == init + [last];
      if keep(last) then Filter(init, keep) + [last] else Filter(init, keep)
  }

  /** `ids` lists, in increasing order, exactly the positions of the elements `keep` accepts. */
  predicate KeptPositions(els: seq<Element>, keep: Element -> bool, ids: seq<int>) {
    && Increasing(ids)
    && (forall k :: 0 <= k < |ids| ==> 0 <= ids[k] < |els| && keep(els[ids[k]]))
    && (forall i :: 0 <= i < |els| && keep(els[i]) ==> i in ids)
  }

  /**
   * A comprehension keeps the accepted elements in their original order, each as often
   * as it occurs: its k-th entry is the k-th accepted element.
   */
  lemma FilterKeepsOrder(els: seq<Element>, keep: Element -> bool)
    ensures exists ids :: && KeptPositions(els, keep, ids) && |ids| == |Filter(els, keep)|
                          && forall k :: 0 <= k < |ids| ==> Filter(els, keep)[k] == els[ids[k]]
  {
    var ids := FilterPositions(els, keep);
  }

  lemma {:induction false} FilterPositions(els: seq<Element>, keep: Element -> bool) returns (ids: seq<int>)
    ensures KeptPositions(els, keep, ids) && |ids| == |Filter(els, keep)|
    ensures forall k :: 0 <= k < |ids| ==> Filter(els, keep)[k] == els[ids[k]]
    decreases |els|
  {
    if els == [] {
      return [];
    }
    var n := |els| - 1;
    var init := els[..n];
    var prev := FilterPositions(init, keep);
    var r := Filter(els, keep);
    if keep(els[n]) {
      ids := prev + [n];
      KeptPositionsSnoc(els, keep, prev);
      assert r == Filter(init, keep) + [els[n]];
      forall k | 0 <= k < |ids|
        ensures r[k] == els[ids[k]]
      {
        if k < |prev| {
          assert r[k] == Filter(init, keep)[k];
          assert els[prev[k]] == init[prev[k]];
        }
      }
    } else {
      ids := prev;
      KeptPositionsSkip(els, keep, prev);
      assert r == Filter(init, keep);
      forall k | 0 <= k < |ids|
        ensures r[k] == els[ids[k]]
      {
        assert els[prev[k]] == init[prev[k]];
      }
    }
  }

  /** The positions of a prefix, extended by a last element that is kept. */
  lemma KeptPositionsSnoc(els: seq<Element>, keep: Element -> bool, prev: seq<int>)
    requires els != [] && keep(els[|els| - 1])
    requires KeptPositions(els[..|els| - 1], keep, prev)
    ensures KeptPositions(els, keep, prev + [|els| - 1])
  {
    var n, ids := |els| - 1, prev + [|els| - 1];
    forall k | 0 <= k < |prev|
      ensures 0 <= ids[k] < n && keep(els[ids[k]])
    {
      assert els[..n][prev[k]] == els[prev[k]];
    }
    forall i | 0 <= i < |els| && keep(els[i])
      ensures i in ids
    {
      if i < n {
        assert els[..n][i] == els[i];
        assert i in prev;
        var k :| 0 <= k < |prev| && prev[k] == i;
        assert ids[k] == i;
      } else {
        assert ids[|prev|] == i;
      }
    }
  }

  /** The positions of a prefix, when the last element is dropped. */
  lemma KeptPositionsSkip(els: seq<Element>, keep: Element -> bool, prev: seq<int>)
    requires els != [] && !keep(els[|els| - 1])
    requires KeptPositions(els[..|els| - 1], keep, prev)
    ensures KeptPositions(els, keep, prev)
  {
    var n := |els| - 1;
    forall k | 0 <= k < |prev|
      ensures 0 <= prev[k] < |els| && keep(els[prev[k]])
    {
      assert els[..n][prev[k]] == els[prev[k]];
    }
    forall i | 0 <= i < |els| && keep(els[i])
      ensures i in prev
    {
      assert els[..n][i] == els[i];
    }
  }

  /** Every element is exactly one of simple, complex or list. */
  lemma ClassesExclusive(e: Element)
    ensures IsSimpleEl(e) || IsComplexEl(e) || IsListEl(e)
    ensures !(IsSimpleEl(e) && IsComplexEl(e))
    ensures !(IsSimpleEl(e) && IsListEl(e))
    ensures !(IsComplexEl(e) && IsListEl(e))
  {
  }

  /**
   * Together the three attribute lists hold each element of the type exactly as often
   * as the type does: none is dropped and none is counted twice.
   */
  lemma AttrsPartition(els: seq<Element>)
    ensures multiset(Filter(els, IsSimpleEl)) + multiset(Filter(els, IsComplexEl)) + multiset(Filter(els, IsListEl))
            == multiset(els)
  {
    forall e | true
      ensures ExactlyOne(IsSimpleEl(e), IsComplexEl(e), IsListEl(e))
    {
      ClassesExclusive(e);
    }
    FilterPartition(els, IsSimpleEl, IsComplexEl, IsListEl);
  }

  predicate ExactlyOne(a: bool, b: bool, c: bool) {
    (a || b || c) && !(a && b) && !(a && c) && !(b && c)
  }

  /** Three filters that split every element one way between them split the list. */
  lemma {:induction false} FilterPartition(els: seq<Element>, p: Element -> bool, q: Element -> bool, r: Element -> bool)
    requires forall e :: ExactlyOne(p(e), q(e), r(e))
    ensures multiset(Filter(els, p)) + multiset(Filter(els, q)) + multiset(Filter(els, r)) == multiset(els)
    decreases |els|
  {
    if els != [] {
      var init, last := els[..|els| - 1], els[|els| - 1];
      FilterPartition(init, p, q, r);
      assert els == init + [last];
      FilterSnoc(els, p);
      FilterSnoc(els, q);
      FilterSnoc(els, r);
      CountOnce(multiset(Filter(init, p)), multiset(Filter(init, q)), multiset(Filter(init, r)), last,
                p(last), q(last), r(last));
    }
  }

  /** Adding an element to exactly one of three multisets adds it once to their sum. */
  lemma CountOnce(a: multiset<Element>, b: multiset<Element>, c: multiset<Element>, x: Element,
                  inA: bool, inB: bool, inC: bool)
    requires ExactlyOne(inA, inB, inC)
    ensures (a + if inA then multiset{x} else multiset{}) + (b + if inB then multiset{x} else multiset{})
            + (c + if inC then multiset{x} else multiset{}) == a + b + c + multiset{x}
  {
  }

  /** Filtering a non-empty list counts its last element once if it is kept. */
  lemma FilterSnoc(els: seq<Element>, keep: Element -> bool)
    requires els != []
    ensures var init, last := els[..|els| - 1], els[|els| - 1];
      multiset(Filter(els, keep)) ==
        multiset(Filter(init, keep)) + if keep(last) then multiset{last} else multiset{}
  {
  }

  /** `XSD_MAP`. */
  function XsdMap(t: string): Option<string> {
    if t == "xsd:int" then Some("int")
    else if t == "xsd:string" then Some("text_type")
    else if t == "xsd:long" then Some("int")
    else None
  }

  /** `XSD_MAP[t]`, raising on a missing key. */
  function XsdLookup(t: string): Result<string> {
    match XsdMap(t)
    case None => Err(KeyError(t))
    case Some(v) => Ok(v)
  }

  /**
   * `[(x.name, f(x)) for x in els]` where `f` may raise: the first element `f` raises
   * on raises for the whole list.
   */
  function MapAttrs(els: seq<Element>, f: Element -> Result<string>): (r: Result<seq<(string, string)>>)
    ensures r.Ok? <==> forall i :: 0 <= i < |els| ==> f(els[i]).Ok?
    ensures r.Ok? ==> (|r.value| == |els|
      && forall i :: 0 <= i < |els| ==> r.value[i] == (els[i].name, f(els[i]).value))
    ensures r.Err? ==> exists i :: (0 <= i < |els| && f(els[i]) == Err(r.error)
      && forall j :: 0 <= j < i ==> f(els[j]).Ok?)
    decreases |els|
  {
    if els == [] then Ok([])
    else match f(els[0])
      case Err(e) => Err(e)
      case Ok(v) =>
        match MapAttrs(els[1..], f)
        case Err(e) =>
          assert forall j :: 0 < j < |els| ==> els[j] == els[1..][j - 1];
          Err(e)
        case Ok(rest) =>
          assert forall j :: 0 < j < |els| ==> els[j] == els[1..][j - 1];
          Ok([(els[0].name, v)] + rest)
  }

  /** The Python type of a simple attribute. */
  function SimpleType(e: Element): Result<string> {
    XsdLookup(e.typ)
  }

  /** `get_simpleattrs`. */
  function GetSimpleAttrs(els: seq<Element>): Result<seq<(string, string)>> {
    MapAttrs(Filter(els, IsSimpleEl), SimpleType)
  }

  /** `get_complexattrs`. */
  function GetComplexAttrs(els: seq<Element>): (r: seq<(string, string)>)
    ensures |r| == |Filter(els, IsComplexEl)|
    ensures forall i :: 0 <= i < |r| ==>
      r[i] == (Filter(els, IsComplexEl)[i].name, Filter(els, IsComplexEl)[i].typ)
  {
    var cs := Filter(els, IsComplexEl);
    seq(|cs|, i requires 0 <= i < |cs| => (cs[i].name, cs[i].typ))
  }

  /** `_get_el_listtype`: the `"xsd"` test has no colon, so `"xsdfoo"` is looked up too. */
  function ListType(e: Element, capcase: string -> string): Result<string> {
    if StartsWith(e.typ, "xsd") then XsdLookup(e.typ) else Ok(capcase(e.typ))
  }

  /** `get_listattrs`. */
  function GetListAttrs(els: seq<Element>, capcase: string -> string): Result<seq<(string, string)>> {
    MapAttrs(Filter(els, IsListEl), (e: Element) => ListType(e, capcase))
  }

  /** The xsd types `XSD_MAP` knows. */
  predicate MappedXsd(t: string) {
    t == "xsd:int" || t == "xsd:string" || t == "xsd:long"
  }

  /** `XSD_MAP` knows three xsd types and maps them to two Python types. */
  lemma XsdLookupMeaning(t: string)
    ensures XsdLookup(t).Ok? <==> MappedXsd(t)
    ensures XsdLookup(t).Ok? ==> XsdLookup(t).value == "int" || XsdLookup(t).value == "text_type"
    ensures XsdLookup(t).Err? ==> XsdLookup(t).error == KeyError(t)
  {
  }

  /** Simple attributes succeed exactly when every simple element has one of the three mapped xsd types. */
  lemma SimpleAttrsOk(els: seq<Element>)
    ensures GetSimpleAttrs(els).Ok? <==> forall e :: e in els && IsSimpleEl(e) ==> MappedXsd(e.typ)
  {
    var simple := Filter(els, IsSimpleEl);
    assert GetSimpleAttrs(els) == MapAttrs(simple, SimpleType);
    MapSimpleOk(simple);
    if forall i :: 0 <= i < |simple| ==> MappedXsd(simple[i].typ) {
      forall e | e in els && IsSimpleEl(e)
        ensures MappedXsd(e.typ)
      {
        assert e in simple;
        var i :| 0 <= i < |simple| && simple[i] == e;
      }
    } else {
      var i :| 0 <= i < |simple| && !MappedXsd(simple[i].typ);
      assert simple[i] in simple;
    }
  }

  /** `SimpleAttrsOk` over the already filtered elements. */
  lemma MapSimpleOk(simple: seq<Element>)
    ensures MapAttrs(simple, SimpleType).Ok? <==> forall i :: 0 <= i < |simple| ==> MappedXsd(simple[i].typ)
  {
    var f: Element -> Result<string> := SimpleType;
    var r := MapAttrs(simple, f);
    if r.Ok? {
      forall i | 0 <= i < |simple|
        ensures MappedXsd(simple[i].typ)
      {
        assert f(simple[i]) == XsdLookup(simple[i].typ);
        XsdLookupMeaning(simple[i].typ);
      }
    } else {
      var i :| 0 <= i < |simple| && f(simple[i]) == Err(r.error);
      assert f(simple[i]) == XsdLookup(simple[i].typ);
      XsdLookupMeaning(simple[i].typ);
    }
  }

  /** Every simple attribute is paired with one of the two Python types `XSD_MAP` produces. */
  lemma SimpleAttrsTypes(els: seq<Element>)
    ensures GetSimpleAttrs(els).Ok? ==>
      forall p :: p in GetSimpleAttrs(els).value ==> p.1 == "int" || p.1 == "text_type"
  {
    var simple := Filter(els, IsSimpleEl);
    var f: Element -> Result<string> := SimpleType;
    var r := MapAttrs(simple, f);
    assert r == GetSimpleAttrs(els);
    if r.Ok? {
      forall p | p in r.value
        ensures p.1 == "int" || p.1 == "text_type"
      {
        var i :| 0 <= i < |r.value| && r.value[i] == p;
        assert f(simple[i]) == XsdLookup(simple[i].typ);
        XsdLookupMeaning(simple[i].typ);
      }
    }
  }

  /** An element with an unmapped xsd type stops the simple attributes with a key error. */
  lemma UnmappedSimpleTypeRaises()
    ensures GetSimpleAttrs([Element("flag", "xsd:boolean", None)]) == Err(KeyError("xsd:boolean"))
  {
    var e := Element("flag", "xsd:boolean", None);
    assert IsSimpleEl(e) by {
      assert "xsd:boolean"[..4] == "xsd:";
    }
    assert Filter([e], IsSimpleEl) == [e] by {
      assert [e][..0] == [];
    }
    assert !MappedXsd(e.typ) by {
      assert |e.typ| == 11;
    }
    assert SimpleType(e) == Err(KeyError("xsd:boolean"));
  }

  /** A list type spelled "xsd" without the colon is still looked up, and raises when unmapped. */
  lemma ListTypeWithoutColon(capcase: string -> string)
    ensures ListType(Element("items", "xsdThing", Some("unbounded")), capcase) == Err(KeyError("xsdThing"))
    ensures ListType(Element("items", "xsd:long", Some("unbounded")), capcase) == Ok("int")
  {
    assert "xsdThing"[..3] == "xsd";
    assert "xsd:long"[..3] == "xsd";
  }

  // ---------------------------------------------------------------------------
  // SOAP tag, file name, version strings

  /** The first element typed `t`. */
  function FirstTyped(els: seq<Element>, t: string): (r: Option<Element>)
    ensures r.None? <==> forall i :: 0 <= i < |els| ==> els[i].typ != t
    ensures r.Some? ==> exists i :: (0 <= i < |els| && els[i] == r.value && r.value.typ == t
      && forall j :: 0 <= j < i ==> els[j].typ != t)
    decreases |els|
  {
    if els == [] then None
    else if els[0].typ == t then Some(els[0])
    else
      assert forall j :: 0 < j < |els| ==> els[j] == els[1..][j - 1];
      FirstTyped(els[1..], t)
  }

  /**
   * `get_soap_tag`: the name of the first sequence element typed `typeName`, else of
   * the first 'all' element typed so, else `typeName` itself.
   */
  function GetSoapTag(typeName: string, sequenceEls: seq<Element>, allEls: seq<Element>): string {
    match FirstTyped(sequenceEls, typeName)
    case Some(e) => e.name
    case None =>
      match FirstTyped(allEls, typeName)
      case Some(e) => e.name
      case None => typeName
  }

  /**
   * The first sequence usage names the tag; without one, the first 'all' usage does;
   * a type used nowhere is its own tag.
   */
  lemma SoapTagFallback(typeName: string, sequenceEls: seq<Element>, allEls: seq<Element>)
    ensures (exists i :: 0 <= i < |sequenceEls| && sequenceEls[i].typ == typeName) ==>
      exists i :: && 0 <= i < |sequenceEls| && sequenceEls[i].typ == typeName
                  && GetSoapTag(typeName, sequenceEls, allEls) == sequenceEls[i].name
                  && forall j :: 0 <= j < i ==> sequenceEls[j].typ != typeName
    ensures (forall i :: 0 <= i < |sequenceEls| ==> sequenceEls[i].typ != typeName) &&
            (exists i :: 0 <= i < |allEls| && allEls[i].typ == typeName) ==>
      exists i :: && 0 <= i < |allEls| && allEls[i].typ == typeName
                  && GetSoapTag(typeName, sequenceEls, allEls) == allEls[i].name
                  && forall j :: 0 <= j < i ==> allEls[j].typ != typeName
    ensures (forall i :: 0 <= i < |sequenceEls| ==> sequenceEls[i].typ != typeName) &&
            (forall i :: 0 <= i < |allEls| ==> allEls[i].typ != typeName) ==>
      GetSoapTag(typeName, sequenceEls, allEls) == typeName
  {
  }

  /** `get_file_name`. */
  function GetFileName(typeName: string): string {
    typeName + ".py"
  }

  /** Distinct types get distinct files, each ending in ".py". */
  lemma FileNamesDistinct(a: string, b: string)
    ensures GetFileName(a)[|a|..] == ".py"
    ensures a != b ==> GetFileName(a) != GetFileName(b)
  {
    if GetFileName(a) == GetFileName(b) {
      assert a == GetFileName(a)[..|a|];
      assert |a| == |b|;
      assert b == GetFileName(b)[..|b|];
    }
  }

  /**
   * `search_wsdl_contents`: `capture` is the first group of the pattern's first match,
   * None when it does not match.
   */
  function SearchWsdlContents(capture: Option<string>, name: string): (r: Result<string>)
    ensures r.Err? <==> capture.None?
    ensures r.Err? ==> r.error == PatternNotFound(name)
    ensures r.Ok? ==> r.value == Strip(capture.value)
  {
    match capture
    case None => Err(PatternNotFound(name))
    case Some(text) => Ok(Strip(text))
  }

  /** A value read from the schema text has no surrounding whitespace: stripping it again changes nothing. */
  lemma StripIdempotent(s: string)
    ensures Strip(Strip(s)) == Strip(s)
  {
    var t := Strip(s);
    assert Leading(t) == 0;
    assert t[0..] == t;
    assert Trailing(t) == 0;
  }

  // ---------------------------------------------------------------------------
  // get_type_code

  /** The entries `parse_type` has computed before it calls `get_type_code`. */
  datatype ParsedType = ParsedType(
    typeName: string,
    soapTag: string,
    pyType: string,
    stypes: seq<(string, string)>,
    ctypes: seq<(string, string)>,
    ltypes: seq<(string, string)>,
    fileName: string)

  /** `"'{}': {},".format(name, value)`. */
  function ArgLine(name: string, value: string): string {
    "'" + name + "': " + value + ","
  }

  /** `"self.{} = None".format(name)`. */
  function SimpleDef(name: string): string {
    "self." + name + " = None"
  }

  /** `"self.{} = []".format(name)`. */
  function ListDef(name: string): string {
    "self." + name + " = []"
  }

  /** `'# no {} defined in console.wsdl'.format(key)`. */
  function NullLine(key: string): string {
    "# no " + key + " defined in console.wsdl"
  }

  /** The separator of the constructor-argument blocks. */
  const ArgSep: string := "\n                "

  /** The separator of the property blocks. */
  const PropSep: string := "\n        "

  /** `sep.join(lines)`. */
  function JoinWith(lines: seq<string>, sep: string): string
    decreases |lines|
  {
    if lines == [] then []
    else if |lines| == 1 then lines[0]
    else JoinWith(lines[..|lines| - 1], sep) + sep + lines[|lines| - 1]
  }

  /** `sep.join(lines or [nullt(key)])`. */
  function Block(lines: seq<string>, key: string, sep: string): string {
    if lines == [] then NullLine(key) else JoinWith(lines, sep)
  }

  function ArgLines(pairs: seq<(string, string)>, value: string -> string): (r: seq<string>)
    ensures |r| == |pairs|
  {
    seq(|pairs|, i requires 0 <= i < |pairs| => ArgLine(pairs[i].0, value(pairs[i].1)))
  }

  function DefLines(pairs: seq<(string, string)>, def: string -> string): (r: seq<string>)
    ensures |r| == |pairs|
  {
    seq(|pairs|, i requires 0 <= i < |pairs| => def(pairs[i].0))
  }

  /** The string entries of the type dictionary when `get_type_code` starts. */
  function BaseDict(info: ParsedType): map<string, string> {
    map["type_name" := info.typeName, "soap_tag" := info.soapTag, "py_type" := info.pyType,
        "file_name" := info.fileName]
  }

  function Desc(soapTag: string): string {
    "Python Object representation for Tanium SOAP XML tag: ``" + soapTag + "``"
  }

  /** The entries `get_type_code` adds of its own: the six blocks and the description. */
  function TemplateEntries(info: ParsedType, capcase: string -> string): map<string, string> {
    BaseDict(info)
      ["SIMPLE_ARGS" := Block(ArgLines(info.stypes, v => v), "SIMPLE_ARGS", ArgSep)]
      ["COMPLEX_ARGS" := Block(ArgLines(info.ctypes, capcase), "COMPLEX_ARGS", ArgSep)]
      ["LIST_ARGS" := Block(ArgLines(info.ltypes, v => v), "LIST_ARGS", ArgSep)]
      ["simple_properties" := Block(DefLines(info.stypes, SimpleDef), "simple_properties", PropSep)]
      ["complex_properties" := Block(DefLines(info.ctypes, SimpleDef), "complex_properties", PropSep)]
      ["list_properties" := Block(DefLines(info.ltypes, ListDef), "list_properties", PropSep)]
      ["desc" := Desc(info.soapTag)]
  }

  /** The type dictionary `get_type_code` leaves behind, before the template is applied. */
  function FilledDict(info: ParsedType, capcase: string -> string, general: map<string, string>): map<string, string> {
    TemplateEntries(info, capcase) + general
  }

  /**
   * `get_type_code`: fills the six blocks and the description key by key, merges the
   * general substitutions, and stores the filled template under "code".
   */
  method GetTypeCode(info: ParsedType, capcase: string -> string, general: map<string, string>,
                     substitute: map<string, string> -> string) returns (d: map<string, string>)
    ensures d == FilledDict(info, capcase, general)["code" := substitute(FilledDict(info, capcase, general))]
  {
    d := BaseDict(info);
    d := d["SIMPLE_ARGS" := Block(ArgLines(info.stypes, v => v), "SIMPLE_ARGS", ArgSep)];
    d := d["COMPLEX_ARGS" := Block(ArgLines(info.ctypes, capcase), "COMPLEX_ARGS", ArgSep)];
    d := d["LIST_ARGS" := Block(ArgLines(info.ltypes, v => v), "LIST_ARGS", ArgSep)];
    d := d["simple_properties" := Block(DefLines(info.stypes, SimpleDef), "simple_properties", PropSep)];
    d := d["complex_properties" := Block(DefLines(info.ctypes, SimpleDef), "complex_properties", PropSep)];
    d := d["list_properties" := Block(DefLines(info.ltypes, ListDef), "list_properties", PropSep)];
    d := d["desc" := Desc(info.soapTag)];
    d := d + general;
    d := d["code" := substitute(d)];
  }

  /** Number of occurrences of `c` in `s`. */
  function CountChar(s: string, c: char): nat
    decreases |s|
  {
    if s == [] then 0 else CountChar(s[..|s| - 1], c) + (if s[|s| - 1] == c then 1 else 0)
  }

  lemma {:induction false} CountConcat(a: string, b: string, c: char)
    ensures CountChar(a + b, c) == CountChar(a, c) + CountChar(b, c)
    decreases |b|
  {
    if b == [] {
      assert a + b == a;
    } else {
      var ab := a + b;
      assert ab[..|ab| - 1] == a + b[..|b| - 1];
      CountConcat(a, b[..|b| - 1], c);
    }
  }

  lemma {:induction false} CountAbsent(s: string, c: char)
    requires c !in s
    ensures CountChar(s, c) == 0
    decreases |s|
  {
    if s != [] {
      CountAbsent(s[..|s| - 1], c);
    }
  }

  /** Both separators start a new line and hold no other line break. */
  lemma SeparatorsBreakOnce()
    ensures CountChar(ArgSep, '\n') == 1 && CountChar(PropSep, '\n') == 1
  {
    var sp16, sp8 := "                ", "        ";
    assert ArgSep == "\n" + sp16 && PropSep == "\n" + sp8;
    CountConcat("\n", sp16, '\n');
    CountConcat("\n", sp8, '\n');
    CountAbsent(sp16, '\n');
    CountAbsent(sp8, '\n');
    assert "\n"[..0] == [];
  }

  /** `sep.join` of line-break-free lines, with a one-line-break separator, has one line per entry. */
  lemma {:induction false} JoinLineBreaks(lines: seq<string>, sep: string)
    requires lines != []
    requires forall i :: 0 <= i < |lines| ==> '\n' !in lines[i]
    requires CountChar(sep, '\n') == 1
    ensures CountChar(JoinWith(lines, sep), '\n') == |lines| - 1
    decreases |lines|
  {
    if |lines| == 1 {
      CountAbsent(lines[0], '\n');
    } else {
      var init := lines[..|lines| - 1];
      JoinLineBreaks(init, sep);
      CountConcat(JoinWith(init, sep), sep, '\n');
      CountConcat(JoinWith(init, sep) + sep, lines[|lines| - 1], '\n');
      CountAbsent(lines[|lines| - 1], '\n');
    }
  }

  /**
   * A block has one line per entry of its list; an empty list gives exactly one line,
   * the "# no X defined in console.wsdl" placeholder.
   */
  lemma BlockLines(lines: seq<string>, key: string, sep: string)
    requires forall i :: 0 <= i < |lines| ==> '\n' !in lines[i]
    requires '\n' !in key
    requires CountChar(sep, '\n') == 1
    ensures lines == [] ==> Block(lines, key, sep) == "# no " + key + " defined in console.wsdl"
    ensures CountChar(Block(lines, key, sep), '\n') == if lines == [] then 0 else |lines| - 1
  {
    if lines == [] {
      var n := NullLine(key);
      assert '\n' !in n by {
        assert n == "# no " + key + " defined in console.wsdl";
        assert forall k :: 0 <= k < |n| ==> n[k] != '\n' by {
          forall k | 0 <= k < |n|
            ensures n[k] != '\n'
          {
            if 5 <= k < 5 + |key| {
              assert n[k] == key[k - 5];
            }
          }
        }
      }
      CountAbsent(n, '\n');
    } else {
      JoinLineBreaks(lines, sep);
    }
  }

  /** The keys `general_subs` provides. */
  const GeneralKeys: set<string> := {
    "now", "tanium_version", "wsdl_version", "pytan_version", "pytan_codename", "pytan_title",
    "pytan_url", "pytan_author", "pytan_email", "pytan_description", "pytan_license",
    "pytan_copyright", "pytan_status", "script_name"}

  /** The keys `get_type_code` fills itself. */
  const TemplateKeys: set<string> := {
    "SIMPLE_ARGS", "COMPLEX_ARGS", "LIST_ARGS", "simple_properties", "complex_properties",
    "list_properties", "desc"}

  /** None of the keys `get_type_code` fills is one `general_subs` provides. */
  lemma TemplateKeysDisjoint()
    ensures TemplateKeys !! GeneralKeys
  {
    forall k | k in TemplateKeys
      ensures k !in GeneralKeys
    {
      if k in {"SIMPLE_ARGS", "COMPLEX_ARGS", "LIST_ARGS"} {
        assert k[0] in "SCL";
      } else {
        assert k[|k| - 1] in "sc";
        assert k[0] in "scld";
      }
    }
  }

  /**
   * The six blocks survive the merge of the general substitutions (whose keys
   * `TemplateKeysDisjoint` shows are all different), an empty attribute list becomes
   * its placeholder line, and the general substitutions are kept as given.
   */
  lemma FilledDictBlocks(info: ParsedType, capcase: string -> string, general: map<string, string>)
    requires general.Keys !! TemplateKeys
    ensures var d := FilledDict(info, capcase, general);
      && d.Keys == BaseDict(info).Keys + TemplateKeys + general.Keys
      && (info.stypes == [] ==> d["SIMPLE_ARGS"] == NullLine("SIMPLE_ARGS"))
      && (info.ctypes == [] ==> d["COMPLEX_ARGS"] == NullLine("COMPLEX_ARGS"))
      && (info.ltypes == [] ==> d["LIST_ARGS"] == NullLine("LIST_ARGS"))
      && (info.stypes == [] ==> d["simple_properties"] == NullLine("simple_properties"))
      && (info.ctypes == [] ==> d["complex_properties"] == NullLine("complex_properties"))
      && (info.ltypes == [] ==> d["list_properties"] == NullLine("list_properties"))
      && d["desc"] == Desc(info.soapTag)
      && (forall k :: k in general ==> d[k] == general[k])
  {
    var t := TemplateEntries(info, capcase);
    assert t.Keys == BaseDict(info).Keys + TemplateKeys;
    assert forall k :: k in TemplateKeys ==> FilledDict(info, capcase, general)[k] == t[k];
  }

  // ---------------------------------------------------------------------------
  // parse_type

  /** The type dictionary entries `parse_type` computes, or the first lookup error. */
  function TypeInfo(typeName: string, typeEls: seq<Element>, sequenceEls: seq<Element>, allEls: seq<Element>,
                    capcase: string -> string): Result<ParsedType>
  {
    match GetSimpleAttrs(typeEls)
    case Err(e) => Err(e)
    case Ok(stypes) =>
      match GetListAttrs(typeEls, capcase)
      case Err(e) => Err(e)
      case Ok(ltypes) =>
        Ok(ParsedType(typeName, GetSoapTag(typeName, sequenceEls, allEls), capcase(typeName),
                      stypes, GetComplexAttrs(typeEls), ltypes, GetFileName(typeName)))
  }

  /**
   * `parse_type`: the simple attributes are computed before the list attributes, so
   * an unmapped simple type is the error reported even when a list type fails too.
   */
  lemma TypeInfoMeaning(typeName: string, typeEls: seq<Element>, sequenceEls: seq<Element>, allEls: seq<Element>,
                        capcase: string -> string)
    ensures var r := TypeInfo(typeName, typeEls, sequenceEls, allEls, capcase);
      && (r.Ok? <==> GetSimpleAttrs(typeEls).Ok? && GetListAttrs(typeEls, capcase).Ok?)
      && (GetSimpleAttrs(typeEls).Err? ==> r == Err(GetSimpleAttrs(typeEls).error))
      && (r.Ok? ==>
            && r.value.fileName == typeName + ".py"
            && |r.value.stypes| + |r.value.ctypes| + |r.value.ltypes| == |typeEls|)
  {
    AttrsPartition(typeEls);
    var simple, complex, list := Filter(typeEls, IsSimpleEl), Filter(typeEls, IsComplexEl), Filter(typeEls, IsListEl);
    assert |multiset(simple)| + |multiset(complex)| + |multiset(list)| == |multiset(typeEls)|;
  }

  /** `parse_type`: the entries in order, then `get_type_code`. */
  method ParseType(typeName: string, typeEls: seq<Element>, sequenceEls: seq<Element>, allEls: seq<Element>,
                   capcase: string -> string, general: map<string, string>,
                   substitute: map<string, string> -> string)
    returns (r: Result<map<string, string>>)
    ensures r == match TypeInfo(typeName, typeEls, sequenceEls, allEls, capcase)
      case Err(e) => Err(e)
      case Ok(info) => Ok(FilledDict(info, capcase, general)["code" := substitute(FilledDict(info, capcase, general))])
  {
    var soapTag := GetSoapTag(typeName, sequenceEls, allEls);
    var pyType := capcase(typeName);
    var stypes := GetSimpleAttrs(typeEls);
    if stypes.Err? {
      return Err(stypes.error);
    }
    var ctypes := GetComplexAttrs(typeEls);
    var ltypes := GetListAttrs(typeEls, capcase);
    if ltypes.Err? {
      return Err(ltypes.error);
    }
    var fileName := GetFileName(typeName);
    var info := ParsedType(typeName, soapTag, pyType, stypes.value, ctypes, ltypes.value, fileName);
    var d := GetTypeCode(info, capcase, general, substitute);
    r := Ok(d);
  }
}
