/** The header list of the HTTP access log (httpevents/header.go): the
    request's or response's headers flattened to one (name, value) entry per
    value and sorted by name. */
module HttpHeaders {
  import opened Events
  import opened Strings

  /** `http.Header`: each name with its values. */
  type HttpHeader = map<string, seq<string>>

  /** An order in which `range` over a header map may visit its names:
      every name once. */
  ghost predicate VisitOrder(order: seq<string>, h: HttpHeader)
  {
    (forall i, j :: 0 <= i < j < |order| ==> order[i] != order[j]) &&
    (forall n :: n in order <==> n in h)
  }

  /** The entry of one value under `name`. */
  function EntryOf(name: string): string -> Header
  {
    (v: string) => Header(name, v)
  }

  /** One entry per value of a header. */
  function Entries(name: string, values: seq<string>): seq<Header>
  {
    Map(EntryOf(name), values)
  }

  /** The entries of the headers visited in `order`, skipping the names in
      `dropped`. */
  function Flatten(h: HttpHeader, order: seq<string>, dropped: set<string>): seq<Header>
    requires forall n :: n in order ==> n in h
  {
    if order == [] then []
    else
      var name := order[|order| - 1];
      Flatten(h, order[..|order| - 1], dropped) + (if name in dropped then [] else Entries(name, h[name]))
  }

  /** The entries are exactly the (name, value) pairs of the visited
      headers that are not dropped. */
  lemma {:induction false} FlattenHolds(h: HttpHeader, order: seq<string>, dropped: set<string>, e: Header)
    requires forall n :: n in order ==> n in h
    ensures e in Flatten(h, order, dropped) <==> e.name in order && e.name !in dropped && e.value in h[e.name]
  {
    if order != [] {
      var init, name := order[..|order| - 1], order[|order| - 1];
      assert forall n :: n in init ==> n in order;
      FlattenHolds(h, init, dropped, e);
      assert e.name in order <==> e.name in init || e.name == name by {
        assert order == init + [name];
      }
      if name !in dropped {
        var es := Entries(name, h[name]);
        if e in es {
          var k :| 0 <= k < |es| && es[k] == e;
          assert h[name][k] == e.value;
        }
        if e.name == name && e.value in h[name] {
          var k :| 0 <= k < |h[name]| && h[name][k] == e.value;
          assert es[k] == e;
        }
      }
    }
  }

  /** Names in the order `sort.Sort` leaves them with `Less` comparing
      names. */
  predicate SortedByName(hs: seq<Header>)
  {
    forall i, j :: 0 <= i < j < |hs| ==> !Less(hs[j].name, hs[i].name)
  }

  /** Insertion into a sorted list, after the entries whose name is not
      greater. */
  function Insert(x: Header, hs: seq<Header>): (r: seq<Header>)
    ensures multiset(r) == multiset(hs) + multiset{x}
    ensures |r| == |hs| + 1
  {
    if hs == [] then [x]
    else if Less(x.name, hs[0].name) then [x] + hs
    else
      assert hs == [hs[0]] + hs[1..];
      [hs[0]] + Insert(x, hs[1..])
  }

  /** One of the orders `sort.Sort` may produce (it is not stable, so
      entries with equal names may come in any order). */
  function SortByName(hs: seq<Header>): (r: seq<Header>)
    ensures multiset(r) == multiset(hs)
  {
    if hs == [] then []
    else
      assert hs == [hs[0]] + hs[1..];
      Insert(hs[0], SortByName(hs[1..]))
  }

  lemma {:induction false} InsertSorted(x: Header, hs: seq<Header>)
    requires SortedByName(hs)
    ensures SortedByName(Insert(x, hs))
  {
    if hs == [] {
    } else if Less(x.name, hs[0].name) {
      forall j | 0 <= j < |hs|
        ensures !Less(hs[j].name, x.name)
      {
        if Less(hs[j].name, x.name) {
          LessTransitive(hs[j].name, x.name, hs[0].name);
          if j == 0 {
            LessIrreflexive(hs[0].name);
          }
        }
      }
    } else {
      InsertSorted(x, hs[1..]);
      var r := Insert(x, hs);
      var tail := Insert(x, hs[1..]);
      assert r == [hs[0]] + tail;
      forall j | 0 < j < |r|
        ensures !Less(r[j].name, hs[0].name)
      {
        assert r[j] == tail[j - 1];
        assert r[j] in multiset(tail);
        if r[j] != x {
          assert r[j] in multiset(hs[1..]);
          var k :| 0 <= k < |hs[1..]| && hs[1..][k] == r[j];
          assert hs[k + 1] == r[j];
        }
      }
    }
  }

  lemma {:induction false} SortSorted(hs: seq<Header>)
    ensures SortedByName(SortByName(hs))
  {
    if hs != [] {
      SortSorted(hs[1..]);
      InsertSorted(hs[0], SortByName(hs[1..]));
    }
  }

  /** The `name:value` member of one entry. */
  function Member(e: Header, quote: string -> string): string
  {
    quote(e.name) + ":" + quote(e.value)
  }

  /** Member with the quoting fixed. */
  function MemberOf(quote: string -> string): Header -> string
  {
    (e: Header) => Member(e, quote)
  }

  /** The JSON object of a header list; `quote` is `%q`. */
  function JSON(hs: seq<Header>, quote: string -> string): string
  {
    "{" + Join(Map(MemberOf(quote), hs), ",") + "}"
  }

  /** An empty list is the empty object. */
  lemma JSONEmpty(quote: string -> string)
    ensures JSON([], quote) == "{}"
  {
  }

  /** The members of the first `i + 1` entries, joined. */
  lemma MembersSnoc(hs: seq<Header>, i: nat, quote: string -> string)
    requires i < |hs|
    ensures var f := MemberOf(quote);
      Join(Map(f, hs[..i + 1]), ",") ==
        if i == 0 then Member(hs[i], quote) else Join(Map(f, hs[..i]), ",") + "," + Member(hs[i], quote)
  {
    var f := MemberOf(quote);
    assert hs[..i + 1] == hs[..i] + [hs[i]];
    MapSnoc(f, hs[..i], hs[i]);
    JoinSnoc(Map(f, hs[..i]), Member(hs[i], quote), ",");
  }

  class HeaderList {
    var entries: seq<Header>

    constructor ()
      ensures entries == []
    {
      entries := [];
    }

    /** clear: zeroes every entry, keeping the length. */
    method Clear()
      modifies this
      ensures |entries| == |old(entries)|
      ensures forall i :: 0 <= i < |entries| ==> entries[i] == Header("", "")
    {
      for i := 0 to |entries|
        invariant |entries| == |old(entries)|
        invariant forall k :: 0 <= k < i ==> entries[k] == Header("", "")
      {
        entries := entries[i := Header("", "")];
      }
    }

    /** set: the entries of every header but `Authorization`, sorted by
        name; `order` is the order in which `range` visits the map. */
    method Set(h: HttpHeader, order: seq<string>)
      requires VisitOrder(order, h)
      modifies this
      ensures SortedByName(entries)
      ensures multiset(entries) == multiset(Flatten(h, order, {"Authorization"}))
    {
      var list := Collect(h, order, {"Authorization"});
      entries := SortByName(list);
      SortSorted(list);
    }

    /** Clone: a new list with the same entries. */
    method Clone() returns (c: HeaderList)
      ensures fresh(c) && c.entries == entries
    {
      c := new HeaderList();
      c.entries := entries;
    }

    /** MarshalJSON. */
    method MarshalJSON(quote: string -> string) returns (b: string)
      ensures b == JSON(entries, quote)
    {
      if |entries| == 0 {
        return "{}";
      }
      b := "{";
      for i := 0 to |entries|
        invariant b == "{" + Join(Map(MemberOf(quote), entries[..i]), ",")
      {
        MembersSnoc(entries, i, quote);
        if i != 0 {
          b := b + [','];
        }
        b := b + quote(entries[i].name) + ":" + quote(entries[i].value);
      }
      assert entries[..|entries|] == entries;
      b := b + "}";
    }
  }

  /** The loop over the header map: one entry per value, in visiting
      order, skipping the `dropped` names. */
  method Collect(h: HttpHeader, order: seq<string>, dropped: set<string>) returns (list: seq<Header>)
    requires VisitOrder(order, h)
    ensures list == Flatten(h, order, dropped)
  {
    list := [];
    for k := 0 to |order|
      invariant list == Flatten(h, order[..k], dropped)
    {
      assert order[..k + 1][..k] == order[..k];
      var name := order[k];
      if name !in dropped {
        list := AppendEntries(list, name, h[name]);
      }
    }
    assert order[..|order|] == order;
  }

  /** The inner loop: one entry per value of one header. */
  method AppendEntries(list: seq<Header>, name: string, values: seq<string>) returns (r: seq<Header>)
    ensures r == list + Entries(name, values)
  {
    r := list;
    for j := 0 to |values|
      invariant r == list + Entries(name, values[..j])
    {
      MapSnoc(EntryOf(name), values[..j], values[j]);
      assert values[..j + 1] == values[..j] + [values[j]];
      r := r + [Header(name, values[j])];
    }
    assert values[..|values|] == values;
  }

  /** A list with the entries of the flattened headers, in any order, holds
      exactly the (name, value) pairs of the headers not dropped. */
  lemma ListedContents(h: HttpHeader, order: seq<string>, dropped: set<string>, entries: seq<Header>, e: Header)
    requires VisitOrder(order, h)
    requires multiset(entries) == multiset(Flatten(h, order, dropped))
    ensures e in entries <==> e.name !in dropped && e.name in h && e.value in h[e.name]
  {
    FlattenHolds(h, order, dropped, e);
    assert e in entries <==> e in multiset(entries);
    assert e in Flatten(h, order, dropped) <==> e in multiset(Flatten(h, order, dropped));
  }
}
