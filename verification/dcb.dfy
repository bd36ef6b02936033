// The text fmt's %q gives a string, over any set of printable characters.
module Quoting {

  function HexDigit(d: nat): char
    requires d < 16
  {
    "0123456789abcdef"[d]
  }

  lemma HexDigitInjective(a: nat, b: nat)
    requires a < 16 && b < 16 && HexDigit(a) == HexDigit(b)
    ensures a == b
  {
    if a < 10 { assert HexDigit(a) == '0' + a as char; } else { assert HexDigit(a) == 'a' + (a - 10) as char; }
    if b < 10 { assert HexDigit(b) == '0' + b as char; } else { assert HexDigit(b) == 'a' + (b - 10) as char; }
  }

  // The last k hexadecimal digits of n.
  function Hex(n: nat, k: nat): (r: string)
    ensures |r| == k
  {
    if k == 0 then "" else Hex(n / 16, k - 1) + [HexDigit(n % 16)]
  }

  function Pow16(k: nat): nat {
    if k == 0 then 1 else 16 * Pow16(k - 1)
  }

  lemma {:induction false} HexInjective(n: nat, m: nat, k: nat)
    requires n < Pow16(k) && m < Pow16(k) && Hex(n, k) == Hex(m, k)
    ensures n == m
  {
    if k > 0 {
      assert Hex(n, k)[k - 1] == HexDigit(n % 16) && Hex(m, k)[k - 1] == HexDigit(m % 16);
      HexDigitInjective(n % 16, m % 16);
      assert Hex(n, k)[..k - 1] == Hex(n / 16, k - 1) && Hex(m, k)[..k - 1] == Hex(m / 16, k - 1);
      HexInjective(n / 16, m / 16, k - 1);
    }
  }

  // The letter after the backslash of a short escape, if c has one.
  function ShortEscape(c: char): string {
    match c as int
    case 7 => "a" case 8 => "b" case 12 => "f" case 10 => "n" case 13 => "r" case 9 => "t" case 11 => "v"
    case _ => ""
  }

  function Escape(c: char, printable: char -> bool): string {
    if c == '"' || c == '\\' then ['\\', c]
    else if printable(c) then [c]
    else if ShortEscape(c) != "" then "\\" + ShortEscape(c)
    else if c < ' ' || c as int == 0x7f then "\\x" + Hex(c as int, 2)
    else if c as int < 0x10000 then "\\u" + Hex(c as int, 4)
    else "\\U" + Hex(c as int, 8)
  }

  // The escaped text of s, its closing quote, then rest.
  function EscapedThen(s: string, rest: string, printable: char -> bool): string {
    if s == "" then "\"" + rest else Escape(s[0], printable) + EscapedThen(s[1..], rest, printable)
  }

  // s quoted, then rest.
  function QuotedThen(s: string, rest: string, printable: char -> bool): string {
    "\"" + EscapedThen(s, rest, printable)
  }

  lemma EscapeSelfDelimiting(c: char, d: char, x: string, y: string, printable: char -> bool)
    requires Escape(c, printable) + x == Escape(d, printable) + y
    ensures c == d && x == y
  {
    var e, f := Escape(c, printable), Escape(d, printable);
    assert e[0] == (e + x)[0] && f[0] == (f + y)[0];
    if e[0] == '\\' {
      assert e[1] == (e + x)[1] && f[1] == (f + y)[1];
      assert |e| == |f|;
      assert e == (e + x)[..|e|] && f == (f + y)[..|f|];
      assert Pow16(2) == 0x100 && Pow16(4) == 0x10000 && Pow16(8) == 0x100000000 by {
        assert Pow16(5) == 0x100000 && Pow16(3) == 0x1000 && Pow16(1) == 16;
        assert Pow16(7) == 0x10000000;
      }
      if e[1] == 'x' {
        assert e[2..] == Hex(c as int, 2) && f[2..] == Hex(d as int, 2);
        HexInjective(c as int, d as int, 2);
      } else if e[1] == 'u' {
        assert e[2..] == Hex(c as int, 4) && f[2..] == Hex(d as int, 4);
        HexInjective(c as int, d as int, 4);
      } else if e[1] == 'U' {
        assert e[2..] == Hex(c as int, 8) && f[2..] == Hex(d as int, 8);
        HexInjective(c as int, d as int, 8);
      }
    }
    assert x == (e + x)[|e|..] && y == (f + y)[|f|..];
  }

  lemma EscapedStart(s: string, x: string, printable: char -> bool)
    ensures EscapedThen(s, x, printable) != ""
    ensures EscapedThen(s, x, printable)[0] == '"' <==> s == ""
  {
    if s != "" {
      assert EscapedThen(s, x, printable)[0] == Escape(s[0], printable)[0] != '"';
    }
  }

  lemma {:induction false} EscapedSelfDelimiting(s: string, t: string, x: string, y: string, printable: char -> bool)
    requires EscapedThen(s, x, printable) == EscapedThen(t, y, printable)
    ensures s == t && x == y
  {
    var u, v := EscapedThen(s, x, printable), EscapedThen(t, y, printable);
    if s == "" || t == "" {
      EscapedStart(s, x, printable);
      EscapedStart(t, y, printable);
      assert u[1..] == x && v[1..] == y;
    } else {
      EscapeSelfDelimiting(s[0], t[0], EscapedThen(s[1..], x, printable), EscapedThen(t[1..], y, printable), printable);
      EscapedSelfDelimiting(s[1..], t[1..], x, y, printable);
      assert s == [s[0]] + s[1..] && t == [t[0]] + t[1..];
    }
  }

  // A quoted string shows where it ends: whatever follows, it reads one way.
  lemma QuotedSelfDelimiting(s: string, t: string, x: string, y: string, printable: char -> bool)
    requires QuotedThen(s, x, printable) == QuotedThen(t, y, printable)
    ensures s == t && x == y
  {
    assert QuotedThen(s, x, printable)[1..] == EscapedThen(s, x, printable);
    assert QuotedThen(t, y, printable)[1..] == EscapedThen(t, y, printable);
    EscapedSelfDelimiting(s, t, x, y, printable);
  }
}

// Events, queries, and what a query means (internal/dcb).
module Dcb {
  import opened Wrappers
  import opened Lists
  import opened Sorting
  import opened Quoting

  datatype Tag = Tag(name: string, value: string)

  datatype EventData = EventData(typ: string, identifiers: seq<Tag>, metadata: seq<Tag>, payload: string)

  // Time 0 is Go's zero time.
  datatype PendingEvent = PendingEvent(time: nat, data: EventData)

  datatype Event = Event(sequence: int, time: nat, data: EventData)

  // None is a nil list: the axis is unconstrained.
  datatype QueryItem = QueryItem(types: Option<seq<string>>, identifiers: Option<seq<Tag>>, metadata: Option<seq<Tag>>)

  datatype Query = All | NoEvent | Items(items: seq<QueryItem>)

  datatype AppendCondition = AppendCondition(query: Query, after: int)

  function Listed<T>(list: Option<seq<T>>): seq<T> {
    if list.Some? then list.value else []
  }

  predicate ItemMatches(item: QueryItem, e: EventData) {
    && (item.types.Some? ==> e.typ in item.types.value)
    && (forall id :: id in Listed(item.identifiers) ==> id in e.identifiers)
    && (forall md :: md in Listed(item.metadata) ==> md in e.metadata)
  }

  predicate SomeItemMatches(items: seq<QueryItem>, e: EventData) {
    exists item :: item in items && ItemMatches(item, e)
  }

  predicate Matches(q: Query, e: EventData) {
    match q
    case All => true
    case NoEvent => false
    case Items(items) => SomeItemMatches(items, e)
  }

  const MAX_QUERY_ITEMS := 100
  const MAX_QUERY_ITEM_VALUES := 100

  predicate ValidItem(item: QueryItem) {
    && (item.types.Some? || item.identifiers.Some? || item.metadata.Some?)
    && item.types != Some([]) && item.identifiers != Some([]) && item.metadata != Some([])
    && |Listed(item.types)| + |Listed(item.identifiers)| + |Listed(item.metadata)| <= MAX_QUERY_ITEM_VALUES
  }

  predicate ValidQuery(q: Query) {
    q.Items? ==> 0 < |q.items| <= MAX_QUERY_ITEMS && forall item :: item in q.items ==> ValidItem(item)
  }

  // ---- The key two items share when one is a duplicate of the other.

  predicate TagLeq(a: Tag, b: Tag) {
    if a.name != b.name then StringLeq(a.name, b.name) else StringLeq(a.value, b.value)
  }

  lemma TagOrder()
    ensures TotalOrder(TagLeq)
  {
    StringOrder();
  }

  datatype KeyLine = TypeLine(typ: string) | IdentifierLine(id: Tag) | MetadataLine(md: Tag)

  function TypeLines(types: seq<string>): (r: seq<KeyLine>)
    ensures |r| == |types| && forall i :: 0 <= i < |r| ==> r[i] == TypeLine(types[i])
  {
    seq(|types|, i requires 0 <= i < |types| => TypeLine(types[i]))
  }

  function IdentifierLines(ids: seq<Tag>): (r: seq<KeyLine>)
    ensures |r| == |ids| && forall i :: 0 <= i < |r| ==> r[i] == IdentifierLine(ids[i])
  {
    seq(|ids|, i requires 0 <= i < |ids| => IdentifierLine(ids[i]))
  }

  function MetadataLines(md: seq<Tag>): (r: seq<KeyLine>)
    ensures |r| == |md| && forall i :: 0 <= i < |r| ==> r[i] == MetadataLine(md[i])
  {
    seq(|md|, i requires 0 <= i < |md| => MetadataLine(md[i]))
  }

  function KeyLines(item: QueryItem): seq<KeyLine> {
    TypeLines(Sort(Listed(item.types), StringLeq))
    + IdentifierLines(Sort(Listed(item.identifiers), TagLeq))
    + MetadataLines(Sort(Listed(item.metadata), TagLeq))
  }

  function PairThen(tag: Tag, rest: string, printable: char -> bool): string {
    QuotedThen(tag.name, "=" + QuotedThen(tag.value, "\n" + rest, printable), printable)
  }

  function LineThen(line: KeyLine, rest: string, printable: char -> bool): string {
    match line
    case TypeLine(t) => "t:" + QuotedThen(t, "\n" + rest, printable)
    case IdentifierLine(id) => "i:" + PairThen(id, rest, printable)
    case MetadataLine(md) => "m:" + PairThen(md, rest, printable)
  }

  function LinesText(lines: seq<KeyLine>, printable: char -> bool): string {
    if lines == [] then "" else LineThen(lines[0], LinesText(lines[1..], printable), printable)
  }

  // The key queryItemKey builds.
  function QueryItemKey(item: QueryItem, printable: char -> bool): string {
    LinesText(KeyLines(item), printable)
  }

  lemma PairSelfDelimiting(a: Tag, b: Tag, x: string, y: string, printable: char -> bool)
    requires PairThen(a, x, printable) == PairThen(b, y, printable)
    ensures a == b && x == y
  {
    var u, v := QuotedThen(a.value, "\n" + x, printable), QuotedThen(b.value, "\n" + y, printable);
    QuotedSelfDelimiting(a.name, b.name, "=" + u, "=" + v, printable);
    assert ("=" + u)[1..] == u && ("=" + v)[1..] == v;
    QuotedSelfDelimiting(a.value, b.value, "\n" + x, "\n" + y, printable);
    assert ("\n" + x)[1..] == x && ("\n" + y)[1..] == y;
  }

  lemma LineSelfDelimiting(a: KeyLine, b: KeyLine, x: string, y: string, printable: char -> bool)
    requires LineThen(a, x, printable) == LineThen(b, y, printable)
    ensures a == b && x == y
  {
    var u, v := LineThen(a, x, printable), LineThen(b, y, printable);
    assert u[0] == v[0];
    match a {
      case TypeLine(t) =>
        assert u[2..] == QuotedThen(t, "\n" + x, printable);
        assert v[2..] == QuotedThen(b.typ, "\n" + y, printable);
        QuotedSelfDelimiting(t, b.typ, "\n" + x, "\n" + y, printable);
        assert ("\n" + x)[1..] == x && ("\n" + y)[1..] == y;
      case IdentifierLine(id) =>
        assert u[2..] == PairThen(id, x, printable) && v[2..] == PairThen(b.id, y, printable);
        PairSelfDelimiting(id, b.id, x, y, printable);
      case MetadataLine(md) =>
        assert u[2..] == PairThen(md, x, printable) && v[2..] == PairThen(b.md, y, printable);
        PairSelfDelimiting(md, b.md, x, y, printable);
    }
  }

  lemma {:induction false} LinesTextInjective(a: seq<KeyLine>, b: seq<KeyLine>, printable: char -> bool)
    requires LinesText(a, printable) == LinesText(b, printable)
    ensures a == b
  {
    if a != [] && b != [] {
      LineSelfDelimiting(a[0], b[0], LinesText(a[1..], printable), LinesText(b[1..], printable), printable);
      LinesTextInjective(a[1..], b[1..], printable);
      assert a == [a[0]] + a[1..] && b == [b[0]] + b[1..];
    }
  }

  // An item's types, identifiers, and metadata, whatever their order.
  datatype Content = Content(types: multiset<string>, identifiers: multiset<Tag>, metadata: multiset<Tag>)

  ghost function ContentOf(item: QueryItem): Content {
    Content(multiset(Listed(item.types)), multiset(Listed(item.identifiers)), multiset(Listed(item.metadata)))
  }

  lemma KeyLinesSplit(t: seq<string>, i: seq<Tag>, m: seq<Tag>, t': seq<string>, i': seq<Tag>, m': seq<Tag>)
    requires TypeLines(t) + IdentifierLines(i) + MetadataLines(m)
          == TypeLines(t') + IdentifierLines(i') + MetadataLines(m')
    ensures t == t' && i == i' && m == m'
  {
    var u := TypeLines(t) + IdentifierLines(i) + MetadataLines(m);
    var v := TypeLines(t') + IdentifierLines(i') + MetadataLines(m');
    assert forall k :: 0 <= k < |u| ==>
           (u[k].TypeLine? <==> k < |t|) && (u[k].IdentifierLine? <==> |t| <= k < |t| + |i|);
    assert forall k :: 0 <= k < |v| ==>
           (v[k].TypeLine? <==> k < |t'|) && (v[k].IdentifierLine? <==> |t'| <= k < |t'| + |i'|);
    var n, n' := |t| + |i|, |t'| + |i'|;
    assert |t| == |t'| by {
      assert |t| < |u| ==> u[|t|] == v[|t|];
      assert |t'| < |u| ==> u[|t'|] == v[|t'|];
    }
    assert |i| == |i'| by {
      assert n < |u| ==> u[n] == v[n];
      assert n' < |u| ==> u[n'] == v[n'];
    }
    forall k | 0 <= k < |t| ensures t[k] == t'[k] { assert u[k] == v[k]; }
    forall k | 0 <= k < |i| ensures i[k] == i'[k] { assert u[|t| + k] == v[|t| + k]; }
    forall k | 0 <= k < |m| ensures m[k] == m'[k] { assert u[n + k] == v[n + k]; }
  }

  // The key identifies an item's content: two items share it exactly when
  // one is the other in another order.
  lemma KeyIdentifiesContent(a: QueryItem, b: QueryItem, printable: char -> bool)
    ensures QueryItemKey(a, printable) == QueryItemKey(b, printable) <==> ContentOf(a) == ContentOf(b)
  {
    StringOrder();
    TagOrder();
    SortCanonical(Listed(a.types), Listed(b.types), StringLeq);
    SortCanonical(Listed(a.identifiers), Listed(b.identifiers), TagLeq);
    SortCanonical(Listed(a.metadata), Listed(b.metadata), TagLeq);
    if QueryItemKey(a, printable) == QueryItemKey(b, printable) {
      LinesTextInjective(KeyLines(a), KeyLines(b), printable);
      KeyLinesSplit(Sort(Listed(a.types), StringLeq), Sort(Listed(a.identifiers), TagLeq),
                    Sort(Listed(a.metadata), TagLeq),
                    Sort(Listed(b.types), StringLeq), Sort(Listed(b.identifiers), TagLeq),
                    Sort(Listed(b.metadata), TagLeq));
    }
  }

  // ---- Dropping duplicate items.

  function KeyedBy(printable: char -> bool): QueryItem -> string {
    (item: QueryItem) => QueryItemKey(item, printable)
  }

  lemma KeysTellContentsApart(items: seq<QueryItem>, printable: char -> bool)
    ensures Firsts(KeyedBy(printable), items) == Firsts(ContentOf, items)
  {
    forall a, b ensures KeyedBy(printable)(a) == KeyedBy(printable)(b) <==> ContentOf(a) == ContentOf(b) {
      KeyIdentifiesContent(a, b, printable);
    }
    SameClasses(KeyedBy(printable), ContentOf, items);
  }

  method DedupeQueryItems(items: seq<QueryItem>, printable: char -> bool) returns (out: seq<QueryItem>)
    ensures out == Firsts(ContentOf, items)
  {
    out := KeepFirsts(KeyedBy(printable), items);
    KeysTellContentsApart(items, printable);
  }

  lemma SameContentSameMatch(a: QueryItem, b: QueryItem, e: EventData)
    requires ContentOf(a) == ContentOf(b)
    requires ItemMatches(a, e) && b.types != Some([])
    ensures ItemMatches(b, e)
  {
    assert forall t :: t in Listed(a.types) <==> t in multiset(Listed(a.types));
    assert forall t :: t in Listed(b.types) <==> t in multiset(Listed(b.types));
    assert forall t :: t in Listed(a.identifiers) <==> t in multiset(Listed(a.identifiers));
    assert forall t :: t in Listed(b.identifiers) <==> t in multiset(Listed(b.identifiers));
    assert forall t :: t in Listed(a.metadata) <==> t in multiset(Listed(a.metadata));
    assert forall t :: t in Listed(b.metadata) <==> t in multiset(Listed(b.metadata));
    if b.types.Some? {
      assert b.types.value[0] in Listed(a.types);
    }
  }

  // ---- When dropping duplicates keeps a query's meaning.

  predicate TagsWithin(a: QueryItem, d: QueryItem) {
    && (forall id :: id in Listed(a.identifiers) ==> id in Listed(d.identifiers))
    && (forall md :: md in Listed(a.metadata) ==> md in Listed(d.metadata))
  }

  ghost predicate SameTags(a: QueryItem, b: QueryItem) {
    && multiset(Listed(a.identifiers)) == multiset(Listed(b.identifiers))
    && multiset(Listed(a.metadata)) == multiset(Listed(b.metadata))
  }

  // The n-th item names no types, and no earlier one hides it: one with an
  // empty list of types and the same tags.
  ghost predicate Unhidden(items: seq<QueryItem>, n: nat) {
    && n < |items| && items[n].types.None?
    && forall j :: 0 <= j < n ==> !(items[j].types == Some([]) && SameTags(items[j], items[n]))
  }

  // Each item that names no types still has an unhidden one, itself or
  // another, that asks for none but its tags.
  ghost predicate UntypedSurvive(items: seq<QueryItem>) {
    forall d :: d in items && d.types.None? ==> exists n: nat :: Unhidden(items, n) && TagsWithin(items[n], d)
  }

  // A type that no item lists.
  function LongerThan(texts: seq<string>): (t: string)
    ensures forall s :: s in texts ==> |s| < |t|
  {
    if texts == [] then "x"
    else
      var t := LongerThan(texts[1..]);
      assert forall s :: s in texts ==> s == texts[0] || s in texts[1..];
      if |texts[0]| < |t| then t else texts[0] + "x"
  }

  function UnlistedType(items: seq<QueryItem>): (t: string)
    ensures forall item, s :: item in items && s in Listed(item.types) ==> |s| < |t|
  {
    if items == [] then "x"
    else
      var t, u := UnlistedType(items[1..]), LongerThan(Listed(items[0].types));
      assert forall item :: item in items ==> item == items[0] || item in items[1..];
      if |t| < |u| then u else t
  }

  // An event that carries d's tags and no type listed: the items it matches
  // name no types, and ask only for those tags.
  function WitnessFor(items: seq<QueryItem>, d: QueryItem): EventData {
    EventData(UnlistedType(items), Listed(d.identifiers), Listed(d.metadata), "")
  }

  lemma WitnessMatches(items: seq<QueryItem>, d: QueryItem, item: QueryItem)
    requires item in items && ItemMatches(item, WitnessFor(items, d))
    ensures item.types.None? && TagsWithin(item, d)
  {
    assert UnlistedType(items) !in Listed(item.types);
  }

  ghost predicate DedupeKeepsMeaning(items: seq<QueryItem>) {
    forall e :: SomeItemMatches(items, e) <==> Matches(Items(Firsts(ContentOf, items)), e)
  }

  // Of the items with the content of an unhidden one, the one kept names no
  // types either.
  lemma UnhiddenKept(items: seq<QueryItem>, n: nat, e: EventData)
    requires Unhidden(items, n) && ItemMatches(items[n], e)
    ensures SomeItemMatches(Firsts(ContentOf, items), e)
  {
    var kept := KeptFor(ContentOf, items, items[n]);
    var first := FirstsComeFirst(ContentOf, items, kept);
    assert first <= n;
    assert kept.types == Some([]) ==> SameTags(kept, items[n]);
    SameContentSameMatch(items[n], kept, e);
  }

  lemma SurvivorsKeepMeaning(items: seq<QueryItem>, e: EventData)
    requires UntypedSurvive(items)
    ensures SomeItemMatches(items, e) <==> Matches(Items(Firsts(ContentOf, items)), e)
  {
    FirstsDiffer(ContentOf, items);
    if SomeItemMatches(items, e) {
      var item :| item in items && ItemMatches(item, e);
      if item.types.None? {
        var n: nat :| Unhidden(items, n) && TagsWithin(items[n], item);
        UnhiddenKept(items, n, e);
      } else {
        var kept := KeptFor(ContentOf, items, item);
        assert e.typ in multiset(Listed(item.types));
        assert kept.types != Some([]);
        SameContentSameMatch(item, kept, e);
      }
    }
  }

  lemma KeptMeaningSurvives(items: seq<QueryItem>, d: QueryItem)
    requires DedupeKeepsMeaning(items) && d in items && d.types.None?
    ensures exists n: nat :: Unhidden(items, n) && TagsWithin(items[n], d)
  {
    var e := WitnessFor(items, d);
    assert ItemMatches(d, e);
    assert SomeItemMatches(items, e);
    var kept :| kept in Firsts(ContentOf, items) && ItemMatches(kept, e);
    FirstsDiffer(ContentOf, items);
    WitnessMatches(items, d, kept);
    var n := FirstsComeFirst(ContentOf, items, kept);
    forall j | 0 <= j < n ensures !(items[j].types == Some([]) && SameTags(items[j], items[n])) {
      assert ContentOf(items[j]) != ContentOf(kept);
    }
    assert Unhidden(items, n);
  }

  // Dropping duplicates keeps what the items mean, for every event, exactly
  // when each item without types survives it.
  lemma DedupeKeepsMeaningIff(items: seq<QueryItem>)
    ensures DedupeKeepsMeaning(items) <==> UntypedSurvive(items)
  {
    if UntypedSurvive(items) {
      forall e ensures SomeItemMatches(items, e) <==> Matches(Items(Firsts(ContentOf, items)), e) {
        SurvivorsKeepMeaning(items, e);
      }
    }
    if DedupeKeepsMeaning(items) {
      forall d | d in items && d.types.None? ensures exists n: nat :: Unhidden(items, n) && TagsWithin(items[n], d) {
        KeptMeaningSurvives(items, d);
      }
    }
  }

  lemma AcceptedSurvives(items: seq<QueryItem>, d: QueryItem)
    requires ValidQuery(Items(Firsts(ContentOf, items))) && d in items && d.types.None?
    ensures exists n: nat :: Unhidden(items, n) && TagsWithin(items[n], d)
  {
    var kept := KeptFor(ContentOf, items, d);
    var n := FirstsComeFirst(ContentOf, items, kept);
    assert |Listed(kept.types)| == |multiset(Listed(kept.types))|;
    assert forall id :: id in Listed(kept.identifiers) ==> id in multiset(Listed(d.identifiers));
    assert forall md :: md in Listed(kept.metadata) ==> md in multiset(Listed(d.metadata));
    forall j | 0 <= j < n ensures !(items[j].types == Some([]) && SameTags(items[j], items[n])) {
      assert ContentOf(items[j]) != ContentOf(kept);
    }
    assert Unhidden(items, n);
  }

  // Deduplication runs before Validate, on items nothing has checked: every
  // query Validate then lets through still means all the items received.
  lemma AcceptedQueryKeepsMeaning(items: seq<QueryItem>)
    requires ValidQuery(Items(Firsts(ContentOf, items)))
    ensures DedupeKeepsMeaning(items)
  {
    forall d | d in items && d.types.None? ensures exists n: nat :: Unhidden(items, n) && TagsWithin(items[n], d) {
      AcceptedSurvives(items, d);
    }
    DedupeKeepsMeaningIff(items);
  }

  // The smallest input on which it does not: an empty list of types and a
  // missing one share a key, and the first of the two hides the other.
  lemma HiddenItemLosesMeaning()
    ensures !DedupeKeepsMeaning([QueryItem(Some([]), None, None), QueryItem(None, None, None)])
  {
    var items := [QueryItem(Some([]), None, None), QueryItem(None, None, None)];
    assert items[1] in items && SameTags(items[0], items[1]);
    assert forall n: nat :: !Unhidden(items, n);
    DedupeKeepsMeaningIff(items);
  }
}
