/**
 * `json.dumps(d, sort_keys=True, separators=(",", ":"))` over a dict of strings:
 * the compact JSON object whose members appear in ascending key order, and
 * the canonical text of a license's six claims that the signature covers.
 */
module CanonicalJson {
  import opened Wrappers
  import opened Dicts
  import opened JsonText

  type Item = (string, string)

  /** Python's `<` on `str`: lexicographic order of code points. */
  predicate KeyLt(a: string, b: string) {
    if a == [] then b != []
    else if b == [] then false
    else if a[0] != b[0] then a[0] < b[0]
    else KeyLt(a[1..], b[1..])
  }

  lemma {:induction false} KeyLtIrreflexive(a: string)
    ensures !KeyLt(a, a)
  {
    if a != [] { KeyLtIrreflexive(a[1..]); }
  }

  lemma {:induction false} KeyLtTransitive(a: string, b: string, c: string)
    requires KeyLt(a, b) && KeyLt(b, c)
    ensures KeyLt(a, c)
  {
    if a != [] && b != [] && c != [] && a[0] == b[0] && b[0] == c[0] {
      KeyLtTransitive(a[1..], b[1..], c[1..]);
    }
  }

  lemma {:induction false} KeyLtTotal(a: string, b: string)
    requires a != b
    ensures KeyLt(a, b) || KeyLt(b, a)
  {
    if a != [] && b != [] && a[0] == b[0] {
      assert a == [a[0]] + a[1..] && b == [b[0]] + b[1..];
      KeyLtTotal(a[1..], b[1..]);
    }
  }

  lemma {:induction false} KeyLtAsymmetric(a: string, b: string)
    requires KeyLt(a, b)
    ensures !KeyLt(b, a)
  {
    if a != [] && b != [] && a[0] == b[0] { KeyLtAsymmetric(a[1..], b[1..]); }
  }

  /** Items in strictly ascending key order. */
  predicate Sorted(items: seq<Item>) {
    forall i, j :: 0 <= i < j < |items| ==> KeyLt(items[i].0, items[j].0)
  }

  /** Inserts `e` before the first item whose key is greater. */
  function InsertItem(e: Item, items: seq<Item>): (r: seq<Item>)
    ensures multiset(r) == multiset(items) + multiset{e}
  {
    if items == [] then [e]
    else if KeyLt(e.0, items[0].0) then [e] + items
    else
      assert items == [items[0]] + items[1..];
      [items[0]] + InsertItem(e, items[1..])
  }

  lemma {:induction false} InsertSorted(e: Item, items: seq<Item>)
    requires Sorted(items)
    requires forall x :: x in items ==> x.0 != e.0
    ensures Sorted(InsertItem(e, items))
  {
    if items == [] {
    } else if KeyLt(e.0, items[0].0) {
      forall j | 0 < j < |items| ensures KeyLt(e.0, items[j].0) {
        KeyLtTransitive(e.0, items[0].0, items[j].0);
      }
    } else {
      KeyLtTotal(e.0, items[0].0);
      InsertSorted(e, items[1..]);
      var r := InsertItem(e, items[1..]);
      forall j | 0 <= j < |r| ensures KeyLt(items[0].0, r[j].0) {
        assert r[j] in multiset(r);
        assert r[j] == e || r[j] in items[1..];
      }
    }
  }

  /** The items of `d` in ascending key order: Python's `sorted(d.items())` for a dict. */
  function SortByKey(d: Dict<string>): (r: seq<Item>)
    ensures multiset(r) == multiset(d)
  {
    if d == [] then []
    else
      assert d == [d[0]] + d[1..];
      InsertItem(d[0], SortByKey(d[1..]))
  }

  lemma {:induction false} SortByKeySorted(d: Dict<string>)
    requires DistinctKeys(d)
    ensures Sorted(SortByKey(d))
  {
    if d != [] {
      var rest := SortByKey(d[1..]);
      SortByKeySorted(d[1..]);
      forall x | x in rest ensures x.0 != d[0].0 {
        assert x in multiset(d[1..]);
        var i :| 0 <= i < |d[1..]| && d[1..][i] == x;
        assert d[i + 1] == x;
      }
      InsertSorted(d[0], rest);
    }
  }

  /** Two strictly sorted item sequences with the same items are equal. */
  lemma {:induction false} SortedUnique(a: seq<Item>, b: seq<Item>)
    requires Sorted(a) && Sorted(b) && multiset(a) == multiset(b)
    ensures a == b
  {
    if a != [] {
      assert a[0] in multiset(b);
      assert b != [] && b[0] in multiset(a);
      var i :| 0 <= i < |a| && a[i] == b[0];
      var j :| 0 <= j < |b| && b[j] == a[0];
      if i != 0 && j != 0 {
        // a[0] < a[i] == b[0] < b[j] == a[0]
        KeyLtTransitive(a[0].0, b[0].0, a[0].0);
        KeyLtIrreflexive(a[0].0);
      } else if i != 0 {
        KeyLtIrreflexive(a[0].0);
      } else if j != 0 {
        KeyLtIrreflexive(b[0].0);
      }
      assert a[0] == b[0];
      MultisetTail(a);
      MultisetTail(b);
      SortedUnique(a[1..], b[1..]);
    } else {
      assert |b| == |multiset(b)|;
    }
  }

  lemma MultisetTail(a: seq<Item>)
    requires a != []
    ensures multiset(a[1..]) == multiset(a) - multiset{a[0]}
  {
    assert a == [a[0]] + a[1..];
  }

  /** One member `"key":"value"`. */
  function MemberText(e: Item): string {
    Quote(e.0) + ":" + Quote(e.1)
  }

  /** Members separated by `,` with no whitespace. */
  function MembersText(items: seq<Item>): string {
    if items == [] then ""
    else if |items| == 1 then MemberText(items[0])
    else MemberText(items[0]) + "," + MembersText(items[1..])
  }

  /** `json.dumps(d, sort_keys=True, separators=(",", ":"))` for a dict of strings. */
  function Dumps(d: Dict<string>): string {
    "{" + MembersText(SortByKey(d)) + "}"
  }

  // A reader for the compact objects that Dumps writes (section 4 of RFC 8259, without whitespace).

  /** Reads one string literal, quotes included; yields its text and what follows it. */
  function ReadQuoted(s: string): (r: Option<(string, string)>)
    ensures r.Some? ==> |r.value.1| < |s|
  {
    if s == [] || s[0] != '"' then None else ReadString(s[1..])
  }

  /** Reads `"key":"value"`; yields the item and what follows it. */
  function ReadMember(s: string): (r: Option<(Item, string)>)
    ensures r.Some? ==> |r.value.1| < |s|
  {
    match ReadQuoted(s)
    case None => None
    case Some((k, t)) =>
      if t == [] || t[0] != ':' then None
      else match ReadQuoted(t[1..])
        case None => None
        case Some((v, u)) => Some(((k, v), u))
  }

  /** Reads members separated by `,` up to and including the closing `}`. */
  function ReadMembers(s: string): (r: Option<(seq<Item>, string)>)
    ensures r.Some? ==> |r.value.1| < |s|
    decreases |s|
  {
    match ReadMember(s)
    case None => None
    case Some((e, t)) =>
      if t == [] then None
      else if t[0] == '}' then Some(([e], t[1..]))
      else if t[0] != ',' then None
      else match ReadMembers(t[1..])
        case None => None
        case Some((es, u)) => Some(([e] + es, u))
  }

  /** Reads a whole compact JSON object of strings, members in the order written. */
  function ReadObject(s: string): Option<seq<Item>> {
    if |s| < 2 || s[0] != '{' then None
    else if s[1] == '}' then (if |s| == 2 then Some([]) else None)
    else match ReadMembers(s[1..])
      case Some((items, rest)) => if rest == [] then Some(items) else None
      case None => None
  }

  lemma QuotedRoundTrip(x: string, rest: string)
    ensures ReadQuoted(Quote(x) + rest) == Some((x, rest))
  {
    var s := Quote(x) + rest;
    assert s[1..] == Escape(x) + "\"" + rest;
    StringRoundTrip(x, rest);
  }

  lemma MemberRoundTrip(e: Item, rest: string)
    ensures ReadMember(MemberText(e) + rest) == Some((e, rest))
  {
    var t := ":" + Quote(e.1) + rest;
    assert MemberText(e) + rest == Quote(e.0) + t;
    QuotedRoundTrip(e.0, t);
    assert t[1..] == Quote(e.1) + rest;
    QuotedRoundTrip(e.1, rest);
  }

  lemma ReadMembersLast(s: string, e: Item, rest: string)
    requires ReadMember(s) == Some((e, "}" + rest))
    ensures ReadMembers(s) == Some(([e], rest))
  {
    assert ("}" + rest)[1..] == rest;
  }

  lemma ReadMembersNext(s: string, e: Item, tail: string, items: seq<Item>, rest: string)
    requires ReadMember(s) == Some((e, "," + tail))
    requires ReadMembers(tail) == Some((items, rest))
    ensures ReadMembers(s) == Some(([e] + items, rest))
  {
    assert ("," + tail)[1..] == tail;
  }

  lemma {:induction false} MembersRoundTrip(items: seq<Item>, rest: string)
    requires items != []
    ensures ReadMembers(MembersText(items) + "}" + rest) == Some((items, rest))
    decreases |items|
  {
    if |items| == 1 {
      MembersTextLast(items, rest);
      MemberRoundTrip(items[0], "}" + rest);
      ReadMembersLast(MemberText(items[0]) + ("}" + rest), items[0], rest);
    } else {
      var tail := MembersText(items[1..]) + "}" + rest;
      MembersTextNext(items, rest);
      MemberRoundTrip(items[0], "," + tail);
      MembersRoundTrip(items[1..], rest);
      ReadMembersNext(MemberText(items[0]) + ("," + tail), items[0], tail, items[1..], rest);
      assert [items[0]] + items[1..] == items;
    }
  }

  lemma MembersTextLast(items: seq<Item>, rest: string)
    requires |items| == 1
    ensures MembersText(items) + "}" + rest == MemberText(items[0]) + ("}" + rest)
    ensures [items[0]] == items
  {
  }

  lemma MembersTextNext(items: seq<Item>, rest: string)
    requires |items| > 1
    ensures MembersText(items) + "}" + rest == MemberText(items[0]) + ("," + (MembersText(items[1..]) + "}" + rest))
  {
    var m, t := MemberText(items[0]), MembersText(items[1..]);
    assert MembersText(items) == m + "," + t;
    ConcatShape(m, t, rest);
  }

  lemma ConcatShape(m: string, t: string, rest: string)
    ensures m + "," + t + "}" + rest == m + ("," + (t + "}" + rest))
  {
  }

  lemma {:induction false} ObjectRoundTrip(items: seq<Item>)
    ensures ReadObject("{" + MembersText(items) + "}") == Some(items)
  {
    if items != [] {
      var body := MembersText(items);
      MembersTextHead(items);
      MembersRoundTrip(items, "");
      assert body + "}" + "" == body + "}";
      ReadObjectMembers(body, items);
    }
  }

  lemma ReadObjectMembers(body: string, items: seq<Item>)
    requires body != [] && body[0] == '"'
    requires ReadMembers(body + "}") == Some((items, ""))
    ensures ReadObject("{" + body + "}") == Some(items)
  {
    var s := "{" + body + "}";
    Braced(body, s);
    ReadObjectOf(s, items);
  }

  lemma Braced(body: string, s: string)
    requires body != [] && s == "{" + body + "}"
    ensures |s| > 2 && s[0] == '{' && s[1] == body[0] && s[1..] == body + "}"
  {
  }

  lemma ReadObjectOf(s: string, items: seq<Item>)
    requires |s| > 2 && s[0] == '{' && s[1] != '}'
    requires ReadMembers(s[1..]) == Some((items, ""))
    ensures ReadObject(s) == Some(items)
  {
  }

  /** The members text of a non-empty object starts with the quote of the first key. */
  lemma MembersTextHead(items: seq<Item>)
    requires items != []
    ensures MembersText(items) != [] && MembersText(items)[0] == '"'
  {
    MemberTextHead(items[0]);
    if |items| > 1 {
      HeadOfConcat(MemberText(items[0]), "," + MembersText(items[1..]));
      assert MembersText(items) == MemberText(items[0]) + ("," + MembersText(items[1..]));
    }
  }

  lemma MemberTextHead(e: Item)
    ensures MemberText(e) != [] && MemberText(e)[0] == '"'
  {
    var q := Quote(e.0);
    assert q[0] == '"';
    HeadOfConcat(q, ":" + Quote(e.1));
    assert MemberText(e) == q + (":" + Quote(e.1));
  }

  lemma HeadOfConcat(a: string, b: string)
    requires a != []
    ensures a + b != [] && (a + b)[0] == a[0]
  {
  }

  /** Reading back what Dumps wrote yields the dict's items in ascending key order. */
  lemma DumpsRoundTrip(d: Dict<string>)
    ensures ReadObject(Dumps(d)) == Some(SortByKey(d))
  {
    ObjectRoundTrip(SortByKey(d));
  }

  /**
   * The text depends on the dict's items and on nothing else: two dicts give
   * the same text exactly when they hold the same key-value pairs, whatever
   * order they were built in.
   */
  lemma DumpsIffSameItems(d1: Dict<string>, d2: Dict<string>)
    requires DistinctKeys(d1) && DistinctKeys(d2)
    ensures Dumps(d1) == Dumps(d2) <==> multiset(d1) == multiset(d2)
  {
    if multiset(d1) == multiset(d2) {
      SortByKeySorted(d1);
      SortByKeySorted(d2);
      SortedUnique(SortByKey(d1), SortByKey(d2));
    }
    if Dumps(d1) == Dumps(d2) {
      DumpsRoundTrip(d1);
      DumpsRoundTrip(d2);
    }
  }

  /** The six claims a license signature covers. */
  datatype Claims = Claims(customer: string, product: string, issuedAt: string,
                           expiresAt: string, features: string, hwid: string)

  /** The claim dict as `do_sign` builds it, in its construction order. */
  function ClaimDict(c: Claims): Dict<string> {
    [("customer", c.customer), ("product", c.product), ("issued_at", c.issuedAt),
     ("expires_at", c.expiresAt), ("features", c.features), ("hwid", c.hwid)]
  }

  /** The canonical text that is signed. */
  function Canonical(c: Claims): string {
    Dumps(ClaimDict(c))
  }

  /** The claim items in ascending key order. */
  function SortedClaimItems(c: Claims): seq<Item> {
    [("customer", c.customer), ("expires_at", c.expiresAt), ("features", c.features),
     ("hwid", c.hwid), ("issued_at", c.issuedAt), ("product", c.product)]
  }

  lemma ClaimDictDistinct(c: Claims)
    ensures DistinctKeys(ClaimDict(c))
  {
  }

  lemma SortedClaimItemsSorted(c: Claims)
    ensures Sorted(SortedClaimItems(c))
  {
    var s := SortedClaimItems(c);
    assert KeyLt("customer", "expires_at") && KeyLt("expires_at", "features") && KeyLt("features", "hwid");
    assert KeyLt("hwid", "issued_at") && KeyLt("issued_at", "product");
    forall i, j | 0 <= i < j < |s| ensures KeyLt(s[i].0, s[j].0) {
      if j > i + 1 {
        assert s[i].0[0] < s[j].0[0];
      }
    }
  }

  lemma SortedClaimItemsPermutation(c: Claims)
    ensures multiset(SortedClaimItems(c)) == multiset(ClaimDict(c))
  {
  }

  /** The claim items, sorted, are exactly the items of the claim dict. */
  lemma {:induction false} ClaimsSortOrder(c: Claims)
    ensures SortByKey(ClaimDict(c)) == SortedClaimItems(c)
  {
    SortedClaimItemsSorted(c);
    SortedClaimItemsPermutation(c);
    ClaimDictDistinct(c);
    SortByKeySorted(ClaimDict(c));
    SortedUnique(SortByKey(ClaimDict(c)), SortedClaimItems(c));
  }

  /** The member text of one key and its value. */
  function Member(key: string, value: string): string {
    MemberText((key, value))
  }

  /**
   * The canonical text is a compact object, `{` then the members joined by `,`
   * then `}`, with the keys in ascending order customer, expires_at, features,
   * hwid, issued_at, product, and nothing else.
   */
  lemma {:induction false} CanonicalLayout(c: Claims)
    ensures SortByKey(ClaimDict(c)) == SortedClaimItems(c)
    ensures Canonical(c) == "{" + (Member("customer", c.customer) + "," +
                                  (Member("expires_at", c.expiresAt) + "," +
                                  (Member("features", c.features) + "," +
                                  (Member("hwid", c.hwid) + "," +
                                  (Member("issued_at", c.issuedAt) + "," +
                                   Member("product", c.product)))))) + "}"
  {
    ClaimsSortOrder(c);
    SortedClaimText(c);
  }

  lemma SortedClaimText(c: Claims)
    ensures MembersText(SortedClaimItems(c)) ==
      Member("customer", c.customer) + "," + (Member("expires_at", c.expiresAt) + "," +
      (Member("features", c.features) + "," + (Member("hwid", c.hwid) + "," +
      (Member("issued_at", c.issuedAt) + "," + Member("product", c.product)))))
  {
    var i1, i2, i3 := ("customer", c.customer), ("expires_at", c.expiresAt), ("features", c.features);
    var i4, i5, i6 := ("hwid", c.hwid), ("issued_at", c.issuedAt), ("product", c.product);
    assert SortedClaimItems(c) == [i1] + ([i2] + ([i3] + ([i4] + ([i5] + [i6]))));
    MembersCons(i5, [i6]);
    MembersCons(i4, [i5] + [i6]);
    MembersCons(i3, [i4] + ([i5] + [i6]));
    MembersCons(i2, [i3] + ([i4] + ([i5] + [i6])));
    MembersCons(i1, [i2] + ([i3] + ([i4] + ([i5] + [i6]))));
  }

  lemma MembersCons(e: Item, rest: seq<Item>)
    requires rest != []
    ensures MembersText([e] + rest) == MemberText(e) + "," + MembersText(rest)
  {
    assert ([e] + rest)[1..] == rest;
  }

  /** Different claims never share a canonical text: changing any field changes the signed text. */
  lemma CanonicalInjective(c1: Claims, c2: Claims)
    ensures Canonical(c1) == Canonical(c2) <==> c1 == c2
  {
    if Canonical(c1) == Canonical(c2) {
      ClaimsSortOrder(c1);
      ClaimsSortOrder(c2);
      DumpsRoundTrip(ClaimDict(c1));
      DumpsRoundTrip(ClaimDict(c2));
      assert SortedClaimItems(c1) == SortedClaimItems(c2);
    }
  }

  /** The canonical text reads back as the six claims in ascending key order, and nothing else. */
  lemma CanonicalReadsBack(c: Claims)
    ensures ReadObject(Canonical(c)) == Some(SortedClaimItems(c))
  {
    ClaimsSortOrder(c);
    DumpsRoundTrip(ClaimDict(c));
  }

  /** Any dict holding the same six items, built in any order, gives the canonical text. */
  lemma CanonicalOrderIndependent(c: Claims, d: Dict<string>)
    requires DistinctKeys(d) && multiset(d) == multiset(ClaimDict(c))
    ensures Dumps(d) == Canonical(c)
  {
    ClaimDictDistinct(c);
    DumpsIffSameItems(d, ClaimDict(c));
  }
}
