/**
 * The two Realm queries the list screen runs over the table of places
 * (MyPlaces/ViewControllers/MainViewController.swift): `sorted(byKeyPath:ascending:)`
 * on "date" or "name", and `filter("name CONTAINS[c] %@ OR location CONTAINS[c] %@")`.
 * Realm evaluates them itself; these definitions fix one behaviour that meets
 * what Realm promises (a permutation ordered by the key; an order-preserving
 * selection of the matching places), with ties kept in table order.
 */
module Queries {
  import opened Wrappers
  import opened Seqs
  import opened Places

  /** The key path chosen by the segmented control. */
  datatype SortKey = ByDate | ByName

  /** A live `Results<Place>` over the whole table: unsorted, or sorted by one key path. */
  datatype Query = AllPlaces | Sorted(key: SortKey, ascending: bool)

  /** A live filtered `Results<Place>`: the query it was built on and the search text. */
  datatype FilterQuery = FilterQuery(base: Query, text: string)

  // ---------------------------------------------------------------- ordering

  /**
   * Lexicographic order on strings, character by character: a prefix comes
   * first, and otherwise the first differing character decides.
   */
  function StrLe(a: string, b: string): (r: bool)
    ensures a <= b ==> r
    ensures r && a != [] ==> b != [] && a[0] <= b[0]
  {
    if a == [] then true
    else if b == [] then false
    else if a[0] != b[0] then a[0] < b[0]
    else StrLe(a[1..], b[1..])
  }

  lemma {:induction false} StrLeTotal(a: string, b: string)
    ensures StrLe(a, b) || StrLe(b, a)
  {
    if a != [] && b != [] && a[0] == b[0] {
      StrLeTotal(a[1..], b[1..]);
    }
  }

  lemma {:induction false} StrLeTransitive(a: string, b: string, c: string)
    requires StrLe(a, b) && StrLe(b, c)
    ensures StrLe(a, c)
  {
    if a != [] && b != [] && c != [] && a[0] == b[0] && b[0] == c[0] {
      StrLeTransitive(a[1..], b[1..], c[1..]);
    }
  }

  lemma {:induction false} StrLeAntisymmetric(a: string, b: string)
    requires StrLe(a, b) && StrLe(b, a)
    ensures a == b
  {
    if a != [] && b != [] {
      StrLeAntisymmetric(a[1..], b[1..]);
      assert a == [a[0]] + a[1..] && b == [b[0]] + b[1..];
    }
  }

  lemma {:induction false} StrLeReflexive(a: string)
    ensures StrLe(a, a)
  {
    if a != [] {
      StrLeReflexive(a[1..]);
    }
  }

  /**
   * `a` may come before `b` when sorting by `key` in the given direction:
   * every place may precede itself, and by date `a` precedes `b` when the
   * dates are equal or strictly ordered the chosen way.
   */
  function KeyLe(a: Place, b: Place, key: SortKey, ascending: bool): (r: bool)
    reads a, b
    ensures a == b ==> r
    ensures key == ByDate ==> (r <==> a.date == b.date || (a.date < b.date) == ascending)
  {
    StrLeReflexive(a.name);
    match key
    case ByDate => if ascending then a.date <= b.date else b.date <= a.date
    case ByName => if ascending then StrLe(a.name, b.name) else StrLe(b.name, a.name)
  }

  lemma KeyLeTotal(a: Place, b: Place, key: SortKey, ascending: bool)
    ensures KeyLe(a, b, key, ascending) || KeyLe(b, a, key, ascending)
  {
    StrLeTotal(a.name, b.name);
  }

  lemma KeyLeTransitive(a: Place, b: Place, c: Place, key: SortKey, ascending: bool)
    requires KeyLe(a, b, key, ascending) && KeyLe(b, c, key, ascending)
    ensures KeyLe(a, c, key, ascending)
  {
    if key == ByName {
      if ascending {
        StrLeTransitive(a.name, b.name, c.name);
      } else {
        StrLeTransitive(c.name, b.name, a.name);
      }
    }
  }

  /** Every place comes no later than every place after it. */
  ghost predicate SortedBy(s: seq<Place>, key: SortKey, ascending: bool)
    reads s
  {
    forall i, j :: 0 <= i < j < |s| ==> KeyLe(s[i], s[j], key, ascending)
  }

  // ---------------------------------------------------------------- sorting

  /** Put `x` before the first place of `s` it may precede. */
  function Insert(x: Place, s: seq<Place>, key: SortKey, ascending: bool): (r: seq<Place>)
    reads x, s
    ensures multiset(r) == multiset(s) + multiset{x}
    ensures forall p :: p in r ==> p == x || p in s
  {
    if s == [] then [x]
    else if KeyLe(x, s[0], key, ascending) then [x] + s
    else
      assert s == [s[0]] + s[1..];
      [s[0]] + Insert(x, s[1..], key, ascending)
  }

  /** The first place of a sorted list comes no later than any other of its places. */
  lemma SortedHeadFirst(s: seq<Place>, key: SortKey, ascending: bool)
    requires s != [] && SortedBy(s, key, ascending)
    ensures forall p :: p in s[1..] ==> KeyLe(s[0], p, key, ascending)
  {
    forall p | p in s[1..] ensures KeyLe(s[0], p, key, ascending) {
      var k :| 0 <= k < |s[1..]| && s[1..][k] == p;
      assert s[k + 1] == p;
    }
  }

  lemma {:induction false} InsertSorted(x: Place, s: seq<Place>, key: SortKey, ascending: bool)
    requires SortedBy(s, key, ascending)
    ensures SortedBy(Insert(x, s, key, ascending), key, ascending)
  {
    if s == [] {
      assert Insert(x, s, key, ascending) == [x];
    } else {
      var a, rest := s[0], s[1..];
      assert s == [a] + rest;
      InsertCons(x, a, rest, key, ascending);
      var r := Insert(x, s, key, ascending);
      if KeyLe(x, a, key, ascending) {
        assert r == [x] + s;
        forall j | 1 <= j < |r| ensures KeyLe(x, r[j], key, ascending) {
          if j > 1 {
            KeyLeTransitive(x, a, s[j - 1], key, ascending);
          }
        }
      } else {
        var t := Insert(x, rest, key, ascending);
        assert r == [a] + t;
        SortedTail(s, key, ascending);
        InsertSorted(x, rest, key, ascending);
        KeyLeTotal(x, a, key, ascending);
        SortedHeadFirst(s, key, ascending);
        forall j | 0 <= j < |t| ensures KeyLe(a, t[j], key, ascending) {
          assert t[j] in t;
        }
      }
    }
  }

  lemma {:induction false} InsertDistinct(x: Place, s: seq<Place>, key: SortKey, ascending: bool)
    requires Distinct(s) && x !in s
    ensures Distinct(Insert(x, s, key, ascending))
  {
    if s == [] {
    } else if KeyLe(x, s[0], key, ascending) {
      DistinctCons(x, s);
    } else {
      DistinctTail(s);
      InsertDistinct(x, s[1..], key, ascending);
      var t := Insert(x, s[1..], key, ascending);
      assert s[0] !in t by {
        assert s[0] != x;
        assert s[0] !in multiset(s[1..]);
        assert s[0] !in multiset(t);
      }
      DistinctCons(s[0], t);
    }
  }

  /**
   * The places of `s` ordered by `key` in the given direction: a permutation
   * of `s`, and sorted. Places with equal keys keep their order in `s`.
   */
  function SortPlaces(s: seq<Place>, key: SortKey, ascending: bool): (r: seq<Place>)
    reads s
    ensures multiset(r) == multiset(s)
    ensures forall p :: p in r ==> p in s
    ensures SortedBy(r, key, ascending)
  {
    if s == [] then []
    else
      var t := SortPlaces(s[1..], key, ascending);
      SortStep(s, t, key, ascending);
      Insert(s[0], t, key, ascending)
  }

  /** One step of `SortPlaces`: inserting the head into the sorted rest sorts the whole list. */
  lemma SortStep(s: seq<Place>, t: seq<Place>, key: SortKey, ascending: bool)
    requires s != [] && multiset(t) == multiset(s[1..]) && SortedBy(t, key, ascending)
    ensures forall i :: 0 <= i < |t| ==> t[i] in s
    ensures multiset(Insert(s[0], t, key, ascending)) == multiset(s)
    ensures SortedBy(Insert(s[0], t, key, ascending), key, ascending)
  {
    assert s == [s[0]] + s[1..];
    forall i | 0 <= i < |t| ensures t[i] in s {
      assert t[i] in multiset(s[1..]);
    }
    InsertSorted(s[0], t, key, ascending);
  }

  /** Sorting a table without duplicates gives a list without duplicates. */
  lemma {:induction false} SortDistinct(s: seq<Place>, key: SortKey, ascending: bool)
    requires Distinct(s)
    ensures Distinct(SortPlaces(s, key, ascending))
  {
    if s != [] {
      var t := SortPlaces(s[1..], key, ascending);
      DistinctTail(s);
      SortDistinct(s[1..], key, ascending);
      assert s == [s[0]] + s[1..];
      assert s[0] !in multiset(t);
      InsertDistinct(s[0], t, key, ascending);
    }
  }

  /** `Insert` on a list given as its first place and the rest. */
  lemma InsertCons(x: Place, a: Place, t: seq<Place>, key: SortKey, ascending: bool)
    ensures Insert(x, [a] + t, key, ascending)
         == if KeyLe(x, a, key, ascending) then [x] + ([a] + t) else [a] + Insert(x, t, key, ascending)
  {
    assert ([a] + t)[0] == a && ([a] + t)[1..] == t;
  }

  /** Inserting a place and removing it again gives back the list. */
  lemma {:induction false} InsertThenRemove(x: Place, s: seq<Place>, key: SortKey, ascending: bool)
    requires x !in s
    ensures RemoveFirst(Insert(x, s, key, ascending), x) == s
  {
    if s == [] {
      RemoveFirstCons(x, [], x);
      assert [x] + [] == [x];
    } else {
      assert s == [s[0]] + s[1..];
      InsertCons(x, s[0], s[1..], key, ascending);
      if KeyLe(x, s[0], key, ascending) {
        RemoveFirstCons(x, s, x);
      } else {
        InsertThenRemove(x, s[1..], key, ascending);
        RemoveFirstCons(s[0], Insert(x, s[1..], key, ascending), x);
      }
    }
  }

  /** Dropping the first place keeps a list sorted. */
  lemma SortedTail(s: seq<Place>, key: SortKey, ascending: bool)
    requires s != [] && SortedBy(s, key, ascending)
    ensures SortedBy(s[1..], key, ascending)
  {
    forall i, j | 0 <= i < j < |s[1..]| ensures KeyLe(s[1..][i], s[1..][j], key, ascending) {
      assert s[1..][i] == s[i + 1] && s[1..][j] == s[j + 1];
    }
  }

  /** Removing the first place of a sorted list and inserting another commute. */
  lemma InsertRemoveHead(x: Place, s: seq<Place>, key: SortKey, ascending: bool)
    requires s != [] && x != s[0] && SortedBy(s, key, ascending)
    ensures Insert(x, s[1..], key, ascending) == RemoveFirst(Insert(x, s, key, ascending), s[0])
  {
    var p, t := s[0], s[1..];
    assert s == [p] + t;
    InsertCons(x, p, t, key, ascending);
    if KeyLe(x, p, key, ascending) {
      RemoveFirstCons(x, s, p);
      RemoveFirstCons(p, t, p);
      assert RemoveFirst(Insert(x, s, key, ascending), p) == [x] + t;
      InsertBeforeHead(x, s, key, ascending);
    } else {
      RemoveFirstCons(p, Insert(x, t, key, ascending), p);
    }
  }

  /** A place that may precede the head of a sorted list also goes in front of its tail. */
  lemma InsertBeforeHead(x: Place, s: seq<Place>, key: SortKey, ascending: bool)
    requires s != [] && KeyLe(x, s[0], key, ascending) && SortedBy(s, key, ascending)
    ensures Insert(x, s[1..], key, ascending) == [x] + s[1..]
  {
    var t := s[1..];
    if t != [] {
      assert t[0] == s[1];
      KeyLeTransitive(x, s[0], s[1], key, ascending);
      assert t == [t[0]] + t[1..];
      InsertCons(x, t[0], t[1..], key, ascending);
    }
  }

  /** In a sorted list, inserting one place and removing another commute. */
  lemma {:induction false} InsertRemoveCommute(x: Place, s: seq<Place>, p: Place, key: SortKey, ascending: bool)
    requires x != p && SortedBy(s, key, ascending)
    ensures Insert(x, RemoveFirst(s, p), key, ascending) == RemoveFirst(Insert(x, s, key, ascending), p)
  {
    if s == [] {
      RemoveFirstCons(x, [], p);
    } else if s[0] == p {
      assert s == [p] + s[1..];
      RemoveFirstCons(p, s[1..], p);
      InsertRemoveHead(x, s, key, ascending);
    } else {
      var a, t := s[0], s[1..];
      assert s == [a] + t;
      RemoveFirstCons(a, t, p);
      var rest := RemoveFirst(t, p);
      InsertCons(x, a, rest, key, ascending);
      InsertCons(x, a, t, key, ascending);
      if KeyLe(x, a, key, ascending) {
        RemoveFirstCons(x, s, p);
      } else {
        SortedTail(s, key, ascending);
        InsertRemoveCommute(x, t, p, key, ascending);
        RemoveFirstCons(a, Insert(x, t, key, ascending), p);
      }
    }
  }

  /** `SortPlaces` on a list given as its first place and the rest. */
  lemma SortCons(a: Place, t: seq<Place>, key: SortKey, ascending: bool)
    ensures SortPlaces([a] + t, key, ascending) == Insert(a, SortPlaces(t, key, ascending), key, ascending)
  {
    assert ([a] + t)[0] == a && ([a] + t)[1..] == t;
  }

  /** Removing the first place of a list before or after sorting agrees. */
  lemma SortRemoveHead(a: Place, t: seq<Place>, key: SortKey, ascending: bool)
    requires a !in t
    ensures SortPlaces(t, key, ascending) == RemoveFirst(SortPlaces([a] + t, key, ascending), a)
  {
    var sorted := SortPlaces(t, key, ascending);
    SortCons(a, t, key, ascending);
    assert a !in multiset(sorted);
    InsertThenRemove(a, sorted, key, ascending);
  }

  /** Removing a place other than the first before or after sorting agrees. */
  lemma SortRemoveLater(a: Place, t: seq<Place>, p: Place, key: SortKey, ascending: bool)
    requires a != p && Distinct(t)
    ensures SortPlaces([a] + RemoveFirst(t, p), key, ascending) == RemoveFirst(SortPlaces([a] + t, key, ascending), p)
    decreases |t|, 2
  {
    SortAfterRemove(t, p, key, ascending);
    SortCons(a, t, key, ascending);
    SortCons(a, RemoveFirst(t, p), key, ascending);
    InsertRemoveCommute(a, SortPlaces(t, key, ascending), p, key, ascending);
  }

  /**
   * Deleting a place from the table and then sorting gives the sorted list
   * without that place: a deleted record leaves the sorted view in place,
   * and nothing else moves.
   */
  lemma {:induction false} SortAfterRemove(s: seq<Place>, p: Place, key: SortKey, ascending: bool)
    requires Distinct(s)
    ensures SortPlaces(RemoveFirst(s, p), key, ascending) == RemoveFirst(SortPlaces(s, key, ascending), p)
    decreases |s|, 1
  {
    if s != [] {
      var a, t := s[0], s[1..];
      assert s == [a] + t;
      RemoveFirstCons(a, t, p);
      if a == p {
        assert a !in t;
        SortRemoveHead(a, t, key, ascending);
      } else {
        DistinctTail(s);
        SortRemoveLater(a, t, p, key, ascending);
      }
    }
  }

  /** No two different places of `s` share a name. */
  ghost predicate NamesUnique(s: seq<Place>)
    reads s
  {
    forall p, q :: p in s && q in s && p.name == q.name ==> p == q
  }

  /**
   * Two lists of the same places, sorted by name in the same direction, with
   * unique names, begin with the same place.
   */
  lemma SortedByNameHead(a: seq<Place>, b: seq<Place>, ascending: bool)
    requires a != [] && Distinct(a) && NamesUnique(a) && multiset(a) == multiset(b)
    requires SortedBy(a, ByName, ascending) && SortedBy(b, ByName, ascending)
    ensures b != [] && a[0] == b[0]
  {
    assert a[0] in multiset(b) && b[0] in multiset(a);
    var k :| 0 <= k < |b| && b[k] == a[0];
    var j :| 0 <= j < |a| && a[j] == b[0];
    if j != 0 && k != 0 {
      assert KeyLe(a[0], a[j], ByName, ascending);
      assert KeyLe(b[0], b[k], ByName, ascending);
      if ascending {
        StrLeAntisymmetric(a[0].name, b[0].name);
      } else {
        StrLeAntisymmetric(b[0].name, a[0].name);
      }
      assert false;
    }
  }

  /**
   * With unique names there is only one order by name: two lists of the same
   * places, both sorted by name in the same direction, are equal.
   */
  lemma {:induction false} SortedByNameUnique(a: seq<Place>, b: seq<Place>, ascending: bool)
    requires Distinct(a) && NamesUnique(a) && multiset(a) == multiset(b)
    requires SortedBy(a, ByName, ascending) && SortedBy(b, ByName, ascending)
    ensures a == b
  {
    if a == [] {
      assert |b| == |multiset(b)| == 0;
    } else {
      SortedByNameHead(a, b, ascending);
      var a', b' := a[1..], b[1..];
      MultisetTail(a, b);
      DistinctTail(a);
      NamesUniqueSub(a, a');
      SortedTail(a, ByName, ascending);
      SortedTail(b, ByName, ascending);
      SortedByNameUnique(a', b', ascending);
    }
  }

  /** A list sorted ascending by name, read back to front, is sorted descending by name. */
  lemma ReverseByName(t: seq<Place>)
    requires SortedBy(t, ByName, true)
    ensures SortedBy(Reverse(t), ByName, false)
  {
    var r, n := Reverse(t), |t|;
    forall i, j | 0 <= i < j < |r| ensures KeyLe(r[i], r[j], ByName, false) {
      assert r[i] == t[n - 1 - i] && r[j] == t[n - 1 - j];
      assert KeyLe(t[n - 1 - j], t[n - 1 - i], ByName, true);
    }
  }

  /** Names stay unique in a list made of places of a list whose names are unique. */
  lemma NamesUniqueSub(s: seq<Place>, t: seq<Place>)
    requires NamesUnique(s) && forall p :: p in t ==> p in s
    ensures NamesUnique(t)
  {
  }

  /**
   * For places with unique names, sorting by name in descending order gives
   * exactly the ascending order reversed.
   */
  lemma SortNameReverse(s: seq<Place>)
    requires Distinct(s) && NamesUnique(s)
    ensures SortPlaces(s, ByName, false) == Reverse(SortPlaces(s, ByName, true))
  {
    var up := SortPlaces(s, ByName, true);
    var down := SortPlaces(s, ByName, false);
    ReverseByName(up);
    SortDistinct(s, ByName, false);
    NamesUniqueSub(s, down);
    SortedByNameUnique(down, Reverse(up), false);
  }

  // ---------------------------------------------------------------- filtering

  /** ASCII case folding, standing in for Realm's `[c]` comparison. */
  function Lower(c: char): char
  {
    if 'A' <= c <= 'Z' then (c as int + 32) as char else c
  }

  function Fold(s: string): (r: string)
    ensures |r| == |s|
  {
    seq(|s|, i requires 0 <= i < |s| => Lower(s[i]))
  }

  /** `needle` occurs in `hay` as a contiguous run (the empty string occurs everywhere). */
  function Contains(hay: string, needle: string): (r: bool)
    ensures needle <= hay ==> r
    ensures r ==> |needle| <= |hay|
    decreases |hay|
  {
    (|needle| <= |hay| && hay[..|needle|] == needle) || (hay != [] && Contains(hay[1..], needle))
  }

  /** `CONTAINS[c]`: containment ignoring case. */
  function ContainsIgnoringCase(field: string, text: string): (r: bool)
    ensures Fold(text) <= Fold(field) ==> r
    ensures r ==> |text| <= |field|
  {
    Contains(Fold(field), Fold(text))
  }

  /**
   * The filter's condition: the name contains the text, or a location exists
   * and contains it. The empty text matches every place, and a place without
   * a location matches on its name alone.
   */
  function Matches(p: Place, text: string): (r: bool)
    reads p
    ensures text == "" ==> r
    ensures p.location.None? ==> (r <==> ContainsIgnoringCase(p.name, text))
  {
    ContainsEmpty(Fold(p.name));
    assert Fold("") == "";
    ContainsIgnoringCase(p.name, text) || (p.location.Some? && ContainsIgnoringCase(p.location.value, text))
  }

  /** Folding case twice is folding it once. */
  lemma FoldIdempotent(s: string)
    ensures Fold(Fold(s)) == Fold(s)
  {
    assert forall i :: 0 <= i < |s| ==> Fold(Fold(s))[i] == Fold(s)[i];
  }

  /** `[c]`: the search text's case does not matter; folding it first changes nothing. */
  lemma MatchesIgnoresCase(p: Place, text: string)
    ensures Matches(p, Fold(text)) <==> Matches(p, text)
  {
    FoldIdempotent(text);
  }

  /**
   * The places of `s` that match `text`, in their order in `s`: exactly the
   * matching ones, as an order-preserving selection.
   */
  function Filter(s: seq<Place>, text: string): (r: seq<Place>)
    reads s
    ensures forall p :: p in r ==> p in s && Matches(p, text)
    ensures forall p :: p in s && Matches(p, text) ==> p in r
    ensures Subsequence(r, s)
  {
    if s == [] then []
    else
      var t := Filter(s[1..], text);
      if Matches(s[0], text) then
        assert ([s[0]] + t)[1..] == t;
        [s[0]] + t
      else
        t
  }

  lemma {:induction false} FilterDistinct(s: seq<Place>, text: string)
    requires Distinct(s)
    ensures Distinct(Filter(s, text))
  {
    if s != [] {
      DistinctTail(s);
      FilterDistinct(s[1..], text);
      if Matches(s[0], text) {
        DistinctCons(s[0], Filter(s[1..], text));
      }
    }
  }

  /** Filtering twice by the same text is filtering once. */
  lemma {:induction false} FilterIdempotent(s: seq<Place>, text: string)
    ensures Filter(Filter(s, text), text) == Filter(s, text)
  {
    if s != [] {
      FilterIdempotent(s[1..], text);
      var t := Filter(s[1..], text);
      if Matches(s[0], text) {
        assert ([s[0]] + t)[1..] == t;
      }
    }
  }

  lemma {:induction false} ContainsEmpty(hay: string)
    ensures Contains(hay, "")
  {
    assert hay[..0] == "";
  }

  /** An empty search text keeps every place: every name contains it. */
  lemma {:induction false} FilterEmptyText(s: seq<Place>)
    ensures Filter(s, "") == s
  {
    if s != [] {
      FilterEmptyText(s[1..]);
      ContainsEmpty(Fold(s[0].name));
      assert Fold("") == "";
      assert Matches(s[0], "");
      assert s == [s[0]] + s[1..];
    }
  }

  /** Filtering commutes with deleting one place. */
  lemma {:induction false} FilterAfterRemove(s: seq<Place>, p: Place, text: string)
    ensures Filter(RemoveFirst(s, p), text) == RemoveFirst(Filter(s, text), p)
  {
    if s == [] {
    } else if s[0] == p {
      assert RemoveFirst(s, p) == s[1..];
      var t := Filter(s[1..], text);
      if Matches(p, text) {
        assert ([p] + t)[1..] == t;
      } else {
        assert p !in t;
      }
    } else {
      var rest := RemoveFirst(s[1..], p);
      assert RemoveFirst(s, p) == [s[0]] + rest;
      assert ([s[0]] + rest)[0] == s[0] && ([s[0]] + rest)[1..] == rest;
      FilterAfterRemove(s[1..], p, text);
      var t := Filter(s[1..], text);
      if Matches(s[0], text) {
        assert ([s[0]] + t)[1..] == t;
      }
    }
  }

  // ---------------------------------------------------------------- live results

  /** The places a live query shows for the current table. */
  function Eval(q: Query, objects: seq<Place>): (r: seq<Place>)
    reads objects
    ensures multiset(r) == multiset(objects)
    ensures forall p :: p in r ==> p in objects
    ensures q.Sorted? ==> SortedBy(r, q.key, q.ascending)
  {
    match q
    case AllPlaces => objects
    case Sorted(key, ascending) => SortPlaces(objects, key, ascending)
  }

  lemma EvalDistinct(q: Query, objects: seq<Place>)
    requires Distinct(objects)
    ensures Distinct(Eval(q, objects))
  {
    if q.Sorted? {
      SortDistinct(objects, q.key, q.ascending);
    }
  }

  /** The places a live filtered query shows for the current table. */
  function EvalFilter(f: FilterQuery, objects: seq<Place>): (r: seq<Place>)
    reads objects
    ensures forall p :: p in r ==> p in objects && Matches(p, f.text)
    ensures forall p :: p in objects && Matches(p, f.text) ==> p in r
  {
    var base := Eval(f.base, objects);
    assert forall i :: 0 <= i < |base| ==> base[i] in objects;
    assert forall p :: p in objects ==> p in multiset(base);
    Filter(base, f.text)
  }

  lemma EvalFilterDistinct(f: FilterQuery, objects: seq<Place>)
    requires Distinct(objects)
    ensures Distinct(EvalFilter(f, objects))
  {
    EvalDistinct(f.base, objects);
    FilterDistinct(Eval(f.base, objects), f.text);
  }

  /**
   * Deleting one place from the table removes exactly that place from a live
   * filtered view and leaves the rest in order.
   */
  lemma EvalFilterAfterRemove(f: FilterQuery, objects: seq<Place>, p: Place)
    requires Distinct(objects)
    ensures EvalFilter(f, RemoveFirst(objects, p)) == RemoveFirst(EvalFilter(f, objects), p)
  {
    EvalAfterRemove(f.base, objects, p);
    FilterAfterRemove(Eval(f.base, objects), p, f.text);
  }

  /** Deleting one place from the table removes exactly that place from a live query. */
  lemma EvalAfterRemove(q: Query, objects: seq<Place>, p: Place)
    requires Distinct(objects)
    ensures Eval(q, RemoveFirst(objects, p)) == RemoveFirst(Eval(q, objects), p)
  {
    if q.Sorted? {
      SortAfterRemove(objects, p, q.key, q.ascending);
    }
  }
}
