// The compact form of an event's tags (internal/dcb/event.go): an object of
// each name's values, a single one bare, with sorted names.
module Compact {
  import opened Wrappers
  import opened Lists
  import opened Sorting
  import opened Dcb

  // What a JSON object holds for a name. In an array, None is a null.
  // Unfit is any other JSON value.
  datatype Value = One(text: string) | Many(texts: seq<Option<string>>) | Null | Unfit

  datatype Entry = Entry(name: string, value: Value)

  // The values under one name, in their order.
  function ValuesOf(name: string, tags: seq<Tag>): seq<string> {
    if tags == [] then []
    else
      var last := tags[|tags| - 1];
      if last.name == name then ValuesOf(name, tags[..|tags| - 1]) + [last.value]
      else ValuesOf(name, tags[..|tags| - 1])
  }

  function Present(texts: seq<string>): (r: seq<Option<string>>)
    ensures |r| == |texts| && forall i :: 0 <= i < |r| ==> r[i] == Some(texts[i])
  {
    seq(|texts|, i requires 0 <= i < |texts| => Some(texts[i]))
  }

  function Shape(texts: seq<string>): Value {
    if |texts| == 1 then One(texts[0]) else Many(Present(texts))
  }

  function NamesOf(entries: seq<Entry>): (r: seq<string>)
    ensures |r| == |entries| && forall i :: 0 <= i < |r| ==> r[i] == entries[i].name
  {
    seq(|entries|, i requires 0 <= i < |entries| => entries[i].name)
  }

  // The compact form of tags: each of their names once, in order, with its
  // values.
  ghost predicate CompactOf(entries: seq<Entry>, tags: seq<Tag>) {
    && SortedBy(NamesOf(entries), StringLeq) && Distinct(NamesOf(entries))
    && (forall name :: name in NamesOf(entries) <==> ValuesOf(name, tags) != [])
    && forall i :: 0 <= i < |entries| ==> entries[i].value == Shape(ValuesOf(entries[i].name, tags))
  }

  lemma ValuesSnoc(name: string, tags: seq<Tag>, n: nat)
    requires n < |tags|
    ensures ValuesOf(name, tags[..n + 1]) == ValuesOf(name, tags[..n])
            + if tags[n].name == name then [tags[n].value] else []
  {
    assert tags[..n + 1][..n] == tags[..n];
    assert ValuesOf(name, tags[..n]) + [] == ValuesOf(name, tags[..n]);
  }

  method WriteGroups(names: seq<string>, groups: map<string, seq<string>>) returns (entries: seq<Entry>)
    requires forall name :: name in names ==> name in groups
    ensures NamesOf(entries) == names
    ensures forall i :: 0 <= i < |entries| ==> entries[i].value == Shape(groups[entries[i].name])
  {
    entries := [];
    for i := 0 to |names|
      invariant |entries| == i && forall j :: 0 <= j < i ==> entries[j] == Entry(names[j], Shape(groups[names[j]]))
    {
      var values := groups[names[i]];
      entries := entries + [Entry(names[i], if |values| == 1 then One(values[0]) else Many(Present(values)))];
    }
  }

  // groups has the values of each name, and no other name.
  ghost predicate Grouped(groups: map<string, seq<string>>, tags: seq<Tag>) {
    && (forall name :: name in groups ==> groups[name] == ValuesOf(name, tags) != [])
    && (forall name :: name !in groups ==> ValuesOf(name, tags) == [])
  }

  lemma GroupedSnoc(groups: map<string, seq<string>>, tags: seq<Tag>, n: nat)
    requires n < |tags| && Grouped(groups, tags[..n])
    ensures var before := if tags[n].name in groups then groups[tags[n].name] else [];
            Grouped(groups[tags[n].name := before + [tags[n].value]], tags[..n + 1])
  {
    forall name ensures ValuesOf(name, tags[..n + 1]) ==
      ValuesOf(name, tags[..n]) + if tags[n].name == name then [tags[n].value] else []
    {
      ValuesSnoc(name, tags, n);
    }
  }

  method GroupByName(tags: seq<Tag>) returns (order: seq<string>, groups: map<string, seq<string>>)
    ensures Distinct(order) && (forall name :: name in order <==> name in groups) && Grouped(groups, tags)
  {
    order, groups := [], map[];
    for n := 0 to |tags|
      invariant Distinct(order) && forall name :: name in order <==> name in groups
      invariant Grouped(groups, tags[..n])
    {
      GroupedSnoc(groups, tags, n);
      var name, value := tags[n].name, tags[n].value;
      var before := if name in groups then groups[name] else [];
      if name !in groups {
        order := order + [name];
      }
      groups := groups[name := before + [value]];
    }
    assert tags[..|tags|] == tags;
  }

  lemma {:induction false} AtMostOnce(s: seq<string>, x: string)
    requires Distinct(s)
    ensures multiset(s)[x] <= 1
  {
    if s != [] {
      assert s == [s[0]] + s[1..];
      AtMostOnce(s[1..], x);
    }
  }

  lemma DistinctBySize(a: seq<string>, b: seq<string>)
    requires multiset(a) == multiset(b) && Distinct(b)
    ensures Distinct(a)
  {
    forall i, j | 0 <= i < j < |a| ensures a[i] != a[j] {
      if a[i] == a[j] {
        assert a == a[..i] + [a[i]] + a[i + 1..j] + [a[j]] + a[j + 1..];
        assert multiset(a)[a[i]] >= 2;
        AtMostOnce(b, a[i]);
      }
    }
  }

  // sort.Strings.
  method SortNames(order: seq<string>) returns (names: seq<string>)
    requires Distinct(order)
    ensures SortedBy(names, StringLeq) && Distinct(names) && forall name :: name in names <==> name in order
  {
    StringOrder();
    SortCorrect(order, StringLeq);
    names := Sort(order, StringLeq);
    forall name ensures name in names <==> name in order {
      assert name in names <==> name in multiset(names);
      assert name in order <==> name in multiset(order);
    }
    DistinctBySize(names, order);
  }

  method MarshalCompact(tags: seq<Tag>) returns (entries: seq<Entry>)
    ensures CompactOf(entries, tags)
    ensures forall i :: 0 <= i < |entries| ==>
              var texts := ValuesOf(entries[i].name, tags);
              if |texts| == 1 then entries[i].value == One(texts[0])
              else entries[i].value.Many? && |entries[i].value.texts| == |texts|
                   && forall j :: 0 <= j < |texts| ==> entries[i].value.texts[j] == Some(texts[j])
  {
    var order, groups := GroupByName(tags);
    var names := SortNames(order);
    entries := WriteGroups(names, groups);
  }

  // ---- The form says exactly the values of each name.

  ghost predicate SameByName(a: seq<Tag>, b: seq<Tag>) {
    forall name :: ValuesOf(name, a) == ValuesOf(name, b)
  }

  lemma SameNames(a: seq<string>, b: seq<string>)
    requires SortedBy(a, StringLeq) && SortedBy(b, StringLeq) && Distinct(a) && Distinct(b)
    requires forall name :: name in a <==> name in b
    ensures a == b
  {
    StringOrder();
    forall name ensures multiset(a)[name] == multiset(b)[name] {
      AtMostOnce(a, name);
      AtMostOnce(b, name);
      assert name in a <==> name in multiset(a);
      assert name in b <==> name in multiset(b);
    }
    SortedFormUnique(a, b, StringLeq);
  }

  lemma ShapeTells(a: seq<string>, b: seq<string>)
    requires Shape(a) == Shape(b)
    ensures a == b
  {
    forall i | 0 <= i < |a| && |a| == |b| ensures a[i] == b[i] {
      assert |a| != 1 ==> Present(a)[i] == Present(b)[i];
    }
    assert |a| != 1 && |b| != 1 ==> |Present(a)| == |Present(b)|;
  }

  // Two sets of tags have one compact form exactly when they have the same
  // values, in the same order, under each name.
  lemma OneForm(a: seq<Entry>, s: seq<Tag>, b: seq<Entry>, t: seq<Tag>)
    requires CompactOf(a, s) && CompactOf(b, t)
    ensures a == b <==> SameByName(s, t)
  {
    if SameByName(s, t) {
      SameNames(NamesOf(a), NamesOf(b));
      forall i | 0 <= i < |a| ensures a[i] == b[i] {
        assert NamesOf(a)[i] == NamesOf(b)[i];
      }
    }
    if a == b {
      forall name ensures ValuesOf(name, s) == ValuesOf(name, t) {
        if name in NamesOf(a) {
          var i :| 0 <= i < |a| && a[i].name == name;
          ShapeTells(ValuesOf(name, s), ValuesOf(name, t));
        } else {
          assert name !in NamesOf(b);
        }
      }
    }
  }

  // ---- Reading it back.

  // encoding/json leaves a string that is null empty.
  function TextOr(text: Option<string>): string {
    if text.Some? then text.value else ""
  }

  function TextsOf(value: Value): seq<string> {
    match value
    case One(text) => [text]
    case Null => [""]
    case Many(texts) => seq(|texts|, i requires 0 <= i < |texts| => TextOr(texts[i]))
    case Unfit => []
  }

  // A name's value that is refused.
  predicate Refused(value: Value) {
    value.Unfit? || value == Many([])
  }

  // A JSON value reads as these texts: a string as itself, an array as its
  // strings, and null as an empty string, wherever it is one.
  predicate Reads(value: Value, texts: seq<string>) {
    match value
    case One(text) => texts == [text]
    case Null => texts == [""]
    case Many(all) =>
      && |texts| == |all|
      && forall i :: 0 <= i < |all| ==> texts[i] == if all[i].Some? then all[i].value else ""
    case Unfit => false
  }

  ghost predicate Readable(value: Value) {
    exists texts :: Reads(value, texts) && texts != []
  }

  lemma TextsRead(value: Value)
    ensures !value.Unfit? ==> Reads(value, TextsOf(value))
    ensures Refused(value) <==> !Readable(value)
  {
    if !Refused(value) {
      assert Reads(value, TextsOf(value)) && TextsOf(value) != [];
    } else {
      forall texts | Reads(value, texts) ensures texts == [] {
        assert value.Many? ==> |texts| == 0;
      }
    }
  }

  // A map gives its names in some order, each once.
  ghost predicate OrderOf(order: seq<string>, raw: map<string, Value>) {
    Distinct(order) && Elements(order) == raw.Keys
  }

  lemma NextName(order: seq<string>, n: nat)
    requires n < |order| && Distinct(order)
    ensures order[n] in Elements(order) && order[n] !in Elements(order[..n])
    ensures Elements(order[..n + 1]) == Elements(order[..n]) + {order[n]}
  {
    assert order[..n + 1] == order[..n] + [order[n]];
  }

  // The tags read so far are those of the names done.
  ghost predicate ReadFor(done: set<string>, raw: map<string, Value>, tags: seq<Tag>) {
    forall name :: ValuesOf(name, tags) == if name in done && name in raw then TextsOf(raw[name]) else []
  }

  lemma ReadOneMore(done: set<string>, name: string, raw: map<string, Value>, before: seq<Tag>, after: seq<Tag>)
    requires ReadFor(done, raw, before) && name in raw && name !in done
    requires forall other ::
               ValuesOf(other, after) == ValuesOf(other, before) + if other == name then TextsOf(raw[name]) else []
    ensures ReadFor(done + {name}, raw, after)
  {
    assert [] + TextsOf(raw[name]) == TextsOf(raw[name]);
    forall other
      ensures ValuesOf(other, after) == if other in done + {name} && other in raw then TextsOf(raw[other]) else []
    {
      assert ValuesOf(other, before) + [] == ValuesOf(other, before);
    }
  }

  method AppendValues(tags: seq<Tag>, name: string, texts: seq<string>) returns (out: seq<Tag>)
    ensures forall other :: ValuesOf(other, out) == ValuesOf(other, tags) + if other == name then texts else []
  {
    out := tags;
    for i := 0 to |texts|
      invariant forall other :: ValuesOf(other, out) == ValuesOf(other, tags) + if other == name then texts[..i] else []
    {
      ghost var before := out;
      out := out + [Tag(name, texts[i])];
      assert out[..|out| - 1] == before;
      assert texts[..i + 1] == texts[..i] + [texts[i]];
    }
    assert texts[..|texts|] == texts;
  }

  method UnmarshalCompact(raw: map<string, Value>, order: seq<string>) returns (tags: Option<seq<Tag>>)
    requires OrderOf(order, raw)
    ensures tags.None? <==> exists name :: name in raw && Refused(raw[name])
    ensures tags.Some? ==> forall name :: ValuesOf(name, tags.value) == if name in raw then TextsOf(raw[name]) else []
    ensures tags.Some? ==> forall name :: name in raw ==> Reads(raw[name], ValuesOf(name, tags.value))
    ensures tags.Some? <==> forall name :: name in raw ==> Readable(raw[name])
  {
    var out: seq<Tag> := [];
    ghost var done: set<string> := {};
    for n := 0 to |order|
      invariant done == Elements(order[..n])
      invariant forall name :: name in done ==> name in raw && !Refused(raw[name])
      invariant ReadFor(done, raw, out)
      invariant forall name :: name in done ==> Readable(raw[name]) && Reads(raw[name], TextsOf(raw[name]))
    {
      var name := order[n];
      NextName(order, n);
      TextsRead(raw[name]);
      if Refused(raw[name]) {
        return None;
      }
      ghost var before := out;
      out := AppendValues(out, name, TextsOf(raw[name]));
      ReadOneMore(done, name, raw, before, out);
      done := done + {name};
    }
    assert order[..|order|] == order;
    tags := Some(out);
  }

  // raw is the object with these entries.
  ghost predicate Parsed(raw: map<string, Value>, entries: seq<Entry>) {
    && (forall name :: name in raw <==> name in NamesOf(entries))
    && forall i :: 0 <= i < |entries| ==> entries[i].name in raw && raw[entries[i].name] == entries[i].value
  }

  lemma ShapeReadsBack(texts: seq<string>)
    requires texts != []
    ensures TextsOf(Shape(texts)) == texts && !Refused(Shape(texts))
  {
  }

  lemma ValueAt(raw: map<string, Value>, entries: seq<Entry>, tags: seq<Tag>, name: string)
    requires CompactOf(entries, tags) && Parsed(raw, entries)
    ensures if name in raw then raw[name] == Shape(ValuesOf(name, tags)) && ValuesOf(name, tags) != []
            else ValuesOf(name, tags) == []
  {
    if name in raw {
      assert name in NamesOf(entries);
      var i :| 0 <= i < |entries| && NamesOf(entries)[i] == name;
    }
  }

  lemma {:induction false} CountTag(tags: seq<Tag>, t: Tag)
    ensures multiset(tags)[t] == multiset(ValuesOf(t.name, tags))[t.value]
  {
    if tags != [] {
      var init, last := tags[..|tags| - 1], tags[|tags| - 1];
      assert tags == init + [last];
      CountTag(init, t);
    }
  }

  lemma SameTags(a: seq<Tag>, b: seq<Tag>)
    requires SameByName(a, b)
    ensures multiset(a) == multiset(b)
  {
    forall t ensures multiset(a)[t] == multiset(b)[t] {
      CountTag(a, t);
      CountTag(b, t);
    }
  }

  // What reading the form of tags gives: no error, the same tags, and the
  // same form when marshalled again.
  lemma RoundTrip(tags: seq<Tag>, entries: seq<Entry>, raw: map<string, Value>, back: Option<seq<Tag>>)
    requires CompactOf(entries, tags) && Parsed(raw, entries)
    requires back.None? <==> exists name :: name in raw && Refused(raw[name])
    requires back.Some? ==> forall name :: ValuesOf(name, back.value) == if name in raw then TextsOf(raw[name]) else []
    ensures back.Some? && SameByName(back.value, tags)
    ensures multiset(back.value) == multiset(tags)
    ensures forall again :: CompactOf(again, back.value) ==> again == entries
  {
    forall name
      ensures name in raw ==> !Refused(raw[name]) && TextsOf(raw[name]) == ValuesOf(name, tags)
      ensures name !in raw ==> ValuesOf(name, tags) == []
    {
      ValueAt(raw, entries, tags, name);
      if name in raw {
        ShapeReadsBack(ValuesOf(name, tags));
      }
    }
    assert back.Some?;
    SameTags(back.value, tags);
    forall again | CompactOf(again, back.value) ensures again == entries {
      OneForm(again, back.value, entries, tags);
    }
  }

  // The form as a parser holds it: each entry's value under its name.
  method Parse(entries: seq<Entry>) returns (raw: map<string, Value>)
    requires Distinct(NamesOf(entries))
    ensures Parsed(raw, entries)
  {
    raw := map[];
    for n := 0 to |entries|
      invariant forall name :: name in raw <==> name in NamesOf(entries)[..n]
      invariant forall i :: 0 <= i < n ==> entries[i].name in raw && raw[entries[i].name] == entries[i].value
    {
      assert NamesOf(entries)[..n + 1] == NamesOf(entries)[..n] + [entries[n].name];
      assert forall i :: 0 <= i < n ==> NamesOf(entries)[i] != NamesOf(entries)[n];
      raw := raw[entries[n].name := entries[n].value];
    }
    assert NamesOf(entries)[..|entries|] == NamesOf(entries);
  }

  // Any tags marshalled, read back in whatever order the map gives their
  // names, and marshalled again: no error, the same tags with each name's
  // values in their order, and the same form.
  method ReadBack(tags: seq<Tag>, order: seq<string>)
    returns (entries: seq<Entry>, back: Option<seq<Tag>>, again: seq<Entry>)
    requires Distinct(order) && forall name :: name in order <==> ValuesOf(name, tags) != []
    ensures CompactOf(entries, tags) && back.Some? && again == entries
    ensures SameByName(back.value, tags) && multiset(back.value) == multiset(tags)
  {
    entries := MarshalCompact(tags);
    var raw := Parse(entries);
    back := UnmarshalCompact(raw, order);
    RoundTrip(tags, entries, raw, back);
    again := MarshalCompact(back.value);
  }

  // Two equal tags are told, wherever they are.
  method DuplicateExists(tags: seq<Tag>) returns (found: bool)
    ensures found <==> !Distinct(tags)
  {
    var seen: set<Tag> := {};
    for n := 0 to |tags|
      invariant seen == Elements(tags[..n]) && Distinct(tags[..n])
    {
      if tags[n] in seen {
        var i :| 0 <= i < n && tags[..n][i] == tags[n];
        assert tags[i] == tags[n];
        return true;
      }
      seen := seen + {tags[n]};
      assert tags[..n + 1] == tags[..n] + [tags[n]];
    }
    assert tags[..|tags|] == tags;
    found := false;
  }
}
