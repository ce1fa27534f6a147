/** The client-side title filter: a case-insensitive substring match of the query
    against each performance's play title (components/AfishaCalendar.tsx:96-101). */
module TitleFilter {
  import opened Listing

  /** Lower-case mapping of one character, for Latin A-Z and the Cyrillic capitals
      U+0400..U+042F (Ѐ..Џ map 80 code points up, А..Я 32 up); every other
      character is its own lower case. */
  function LowerChar(c: char): (d: char)
    ensures 'A' <= c <= 'Z' ==> d as int == c as int + 32
    ensures '\U{0410}' <= c <= '\U{042F}' ==> d as int == c as int + 32
    ensures '\U{0400}' <= c <= '\U{040F}' ==> d as int == c as int + 80
    ensures !('A' <= c <= 'Z' || '\U{0400}' <= c <= '\U{042F}') ==> d == c
  {
    if 'A' <= c <= 'Z' then (c as int + 32) as char
    else if '\U{0410}' <= c <= '\U{042F}' then (c as int + 32) as char
    else if '\U{0400}' <= c <= '\U{040F}' then (c as int + 80) as char
    else c
  }

  /** Lower-casing a character twice is lower-casing it once. */
  lemma LowerCharIdempotent(c: char)
    ensures LowerChar(LowerChar(c)) == LowerChar(c)
  {
  }

  /** `toLowerCase`: the string with every character lower-cased. */
  function Lower(s: string): (r: string)
    ensures |r| == |s| && forall i :: 0 <= i < |s| ==> r[i] == LowerChar(s[i])
  {
    seq(|s|, i requires 0 <= i < |s| => LowerChar(s[i]))
  }

  lemma LowerIdempotent(s: string)
    ensures Lower(Lower(s)) == Lower(s)
  {
    forall i | 0 <= i < |s| ensures Lower(Lower(s))[i] == Lower(s)[i] {
      LowerCharIdempotent(s[i]);
    }
  }

  /** `needle` occurs in `hay` starting at position `i`. */
  predicate OccursAt(hay: string, needle: string, i: nat) {
    i + |needle| <= |hay| && hay[i..i + |needle|] == needle
  }

  /** `includes`: the needle occurs somewhere in the haystack (the empty needle
      occurs everywhere). */
  function Contains(hay: string, needle: string): bool
    decreases |hay|
  {
    if |needle| > |hay| then false
    else if hay[..|needle|] == needle then true
    else Contains(hay[1..], needle)
  }

  /** The scan above finds exactly the occurrences of the needle. */
  lemma {:induction false} ContainsIffOccurs(hay: string, needle: string)
    ensures Contains(hay, needle) <==> exists i: nat :: OccursAt(hay, needle, i)
    decreases |hay|
  {
    if |needle| > |hay| {
      forall i: nat ensures !OccursAt(hay, needle, i) { }
    } else if hay[..|needle|] == needle {
      assert OccursAt(hay, needle, 0);
    } else {
      ContainsIffOccurs(hay[1..], needle);
      if Contains(hay[1..], needle) {
        var i: nat :| OccursAt(hay[1..], needle, i);
        assert hay[1..][i..i + |needle|] == hay[i + 1..i + 1 + |needle|];
        assert OccursAt(hay, needle, i + 1);
      } else {
        forall i: nat | OccursAt(hay, needle, i) ensures false {
          if i > 0 {
            assert hay[1..][i - 1..i - 1 + |needle|] == hay[i..i + |needle|];
            assert OccursAt(hay[1..], needle, i - 1);
          }
        }
      }
    }
  }

  lemma ContainsEmpty(hay: string)
    ensures Contains(hay, "")
  {
    assert hay[..0] == "";
  }

  lemma ContainsSelf(s: string)
    ensures Contains(s, s)
  {
    assert s[..|s|] == s;
  }

  /** The test applied to each performance: its lower-cased title contains the
      lower-cased query. */
  predicate Matches(p: Performance, query: string) {
    Contains(Lower(p.title), Lower(query))
  }

  /** `Array.filter`: the matching performances, in their order. */
  function Select(ps: seq<Performance>, query: string): (r: seq<Performance>)
    ensures |r| <= |ps|
  {
    if ps == [] then []
    else if Matches(ps[0], query) then [ps[0]] + Select(ps[1..], query)
    else Select(ps[1..], query)
  }

  /** The filtered view: the whole list for an empty query, otherwise the
      matching performances. */
  function FilterByTitle(ps: seq<Performance>, query: string): (r: seq<Performance>)
    ensures query == "" ==> r == ps
  {
    if query == "" then ps else Select(ps, query)
  }

  /** Selection keeps exactly the matching items, in order, every copy of each. */
  lemma {:induction false} SelectSpec(ps: seq<Performance>, query: string)
    ensures IsSubsequence(Select(ps, query), ps)
    ensures forall x :: x in Select(ps, query) <==> x in ps && Matches(x, query)
    ensures forall x :: multiset(Select(ps, query))[x] == if Matches(x, query) then multiset(ps)[x] else 0
    decreases |ps|
  {
    if ps != [] {
      SelectSpec(ps[1..], query);
      var rest := Select(ps[1..], query);
      assert ps == [ps[0]] + ps[1..];
      assert multiset(ps) == multiset([ps[0]]) + multiset(ps[1..]);
      if Matches(ps[0], query) {
        assert ([ps[0]] + rest)[1..] == rest;
        assert multiset(Select(ps, query)) == multiset([ps[0]]) + multiset(rest);
        forall x ensures x in Select(ps, query) <==> x in ps && Matches(x, query) {
          assert x in ps <==> x == ps[0] || x in ps[1..];
        }
      } else {
        if rest != [] {
          assert rest[0] in rest;
        }
        forall x ensures x in Select(ps, query) <==> x in ps && Matches(x, query) {
          assert x in ps <==> x == ps[0] || x in ps[1..];
        }
      }
    }
  }

  /** Selecting from a list whose items all match keeps it whole. */
  lemma {:induction false} SelectAllMatch(ps: seq<Performance>, query: string)
    requires forall x :: x in ps ==> Matches(x, query)
    ensures Select(ps, query) == ps
    decreases |ps|
  {
    if ps != [] {
      assert ps[0] in ps;
      assert forall x :: x in ps[1..] ==> x in ps;
      SelectAllMatch(ps[1..], query);
    }
  }

  /** The filtered list is an order-preserving subsequence of the list, holding
      exactly its items that match, each as often as the list does; for an empty
      query every item matches. */
  lemma FilterByTitleSpec(ps: seq<Performance>, query: string)
    ensures IsSubsequence(FilterByTitle(ps, query), ps)
    ensures forall x :: x in FilterByTitle(ps, query) <==> x in ps && Matches(x, query)
    ensures forall x ::
      multiset(FilterByTitle(ps, query))[x] == if Matches(x, query) then multiset(ps)[x] else 0
  {
    if query == "" {
      SubsequenceRefl(ps);
      assert Lower(query) == "";
      forall x ensures Matches(x, query) {
        ContainsEmpty(Lower(x.title));
      }
    } else {
      SelectSpec(ps, query);
    }
  }

  /** Filtering an already filtered list by the same query changes nothing. */
  lemma FilterByTitleIdempotent(ps: seq<Performance>, query: string)
    ensures FilterByTitle(FilterByTitle(ps, query), query) == FilterByTitle(ps, query)
  {
    if query != "" {
      SelectSpec(ps, query);
      SelectAllMatch(Select(ps, query), query);
    }
  }

  /** "Гамлет" picks "Гамлет" out of "Гамлет" and "Чайка"; the empty query
      brings both back. */
  lemma HamletScenario(id1: int, id2: int, t1: int, t2: int)
    ensures var hamlet := Performance(id1, "Гамлет", t1);
      var seagull := Performance(id2, "Чайка", t2);
      FilterByTitle([hamlet, seagull], "Гамлет") == [hamlet]
      && FilterByTitle([hamlet, seagull], "") == [hamlet, seagull]
  {
    var hamlet := Performance(id1, "Гамлет", t1);
    var seagull := Performance(id2, "Чайка", t2);
    ContainsSelf(Lower("Гамлет"));
    assert Matches(hamlet, "Гамлет");
    assert |Lower(seagull.title)| < |Lower("Гамлет")|;
    assert !Matches(seagull, "Гамлет");
    assert [hamlet, seagull][1..] == [seagull];
    assert Select([seagull], "Гамлет") == [];
  }
}
