/** Grouping of the filtered list into one bucket per UTC calendar day, and the
    choice of the single item that carries the scroll anchor
    (components/AfishaCalendar.tsx:104-118, 164). */
module DayGroups {
  import opened Listing

  /** One bucket: a UTC day and the performances on it. */
  datatype DayGroup = DayGroup(day: int, items: seq<Performance>)

  /** The distinct days of the list in order of first appearance: the key order
      of the accumulator record. */
  function DaysInOrder(ps: seq<Performance>): seq<int>
  {
    if ps == [] then []
    else
      var ds := DaysInOrder(ps[..|ps| - 1]);
      var d := Day(ps[|ps| - 1]);
      if d in ds then ds else ds + [d]
  }

  /** The performances of the list that fall on `day`, in list order. */
  function Bucket(ps: seq<Performance>, day: int): seq<Performance>
  {
    if ps == [] then []
    else Bucket(ps[..|ps| - 1], day) + (if Day(ps[|ps| - 1]) == day then [ps[|ps| - 1]] else [])
  }

  /** The grouped view: one group per day, in first-appearance order. */
  function Grouped(ps: seq<Performance>): seq<DayGroup>
  {
    var ds := DaysInOrder(ps);
    seq(|ds|, j requires 0 <= j < |ds| => DayGroup(ds[j], Bucket(ps, ds[j])))
  }

  /** The groups' items one group after another, as they are rendered. */
  function Flatten(gs: seq<DayGroup>): seq<Performance>
  {
    if gs == [] then [] else Flatten(gs[..|gs| - 1]) + gs[|gs| - 1].items
  }

  /** The `reduce` into a record keyed by day, then `Object.entries`: keys are
      the non-numeric locale labels, so entries come in insertion order, and the
      `sort` that follows compares unparseable labels as equal and keeps it. */
  method GroupByDay(ps: seq<Performance>) returns (groups: seq<DayGroup>)
    ensures groups == Grouped(ps)
  {
    var keys: seq<int> := [];
    var acc: map<int, seq<Performance>> := map[];
    for i := 0 to |ps|
      invariant keys == DaysInOrder(ps[..i])
      invariant forall d :: d in acc <==> d in keys
      invariant forall d :: d in acc ==> acc[d] == Bucket(ps[..i], d)
    {
      var performance := ps[i];
      var date := Day(performance);
      PrefixStep(ps, i);
      if date !in acc {
        BucketEmptyIffAbsent(ps[..i], date);
        acc := acc[date := []];
        keys := keys + [date];
      }
      acc := acc[date := acc[date] + [performance]];
    }
    assert ps[..|ps|] == ps;
    forall j | 0 <= j < |keys| ensures keys[j] in acc {
      var k := keys[j];
      assert k in keys;
      assert k in acc <==> k in keys;
    }
    groups := Entries(keys, acc);
  }

  /** `Object.entries` of the record: its keys in insertion order with their values. */
  function Entries(keys: seq<int>, acc: map<int, seq<Performance>>): (r: seq<DayGroup>)
    requires forall j :: 0 <= j < |keys| ==> keys[j] in acc
    ensures |r| == |keys| && forall j :: 0 <= j < |keys| ==> r[j] == DayGroup(keys[j], acc[keys[j]])
  {
    seq(|keys|, j requires 0 <= j < |keys| => DayGroup(keys[j], acc[keys[j]]))
  }

  /** One more item of the list, seen by the two specification functions. */
  lemma PrefixStep(ps: seq<Performance>, i: int)
    requires 0 <= i < |ps|
    ensures var ds := DaysInOrder(ps[..i]);
      DaysInOrder(ps[..i + 1]) == if Day(ps[i]) in ds then ds else ds + [Day(ps[i])]
    ensures forall d :: Bucket(ps[..i + 1], d) == Bucket(ps[..i], d) + (if Day(ps[i]) == d then [ps[i]] else [])
  {
    assert ps[..i + 1][..i] == ps[..i];
  }

  /** A day has performances in the list exactly when it is one of its days. */
  lemma {:induction false} BucketEmptyIffAbsent(ps: seq<Performance>, day: int)
    ensures day in DaysInOrder(ps) <==> Bucket(ps, day) != []
  {
    if ps != [] {
      BucketEmptyIffAbsent(ps[..|ps| - 1], day);
    }
  }

  /** No day appears twice: the buckets are disjoint by construction. */
  lemma {:induction false} DaysDistinct(ps: seq<Performance>)
    ensures forall i, j :: 0 <= i < j < |DaysInOrder(ps)| ==> DaysInOrder(ps)[i] != DaysInOrder(ps)[j]
  {
    if ps != [] {
      DaysDistinct(ps[..|ps| - 1]);
    }
  }

  /** A bucket holds exactly the list's items of its day, in list order. */
  lemma {:induction false} BucketSpec(ps: seq<Performance>, day: int)
    ensures forall x :: x in Bucket(ps, day) <==> x in ps && Day(x) == day
    ensures IsSubsequence(Bucket(ps, day), ps)
  {
    if ps != [] {
      var init, x := ps[..|ps| - 1], ps[|ps| - 1];
      BucketSpec(init, day);
      SubsequenceSnoc(Bucket(init, day), init, x, Day(x) == day);
      assert init + [x] == ps;
      assert Bucket(ps, day) == if Day(x) == day then Bucket(init, day) + [x] else Bucket(init, day);
      forall y ensures y in ps <==> y in init || y == x { }
    }
  }

  /** Every item of a group falls on the group's day. */
  lemma GroupedDays(ps: seq<Performance>)
    ensures forall g :: g in Grouped(ps) ==> forall x :: x in g.items ==> Day(x) == g.day
  {
    forall g | g in Grouped(ps) ensures forall x :: x in g.items ==> Day(x) == g.day {
      BucketSpec(ps, g.day);
    }
  }

  /** Every item of the list lies in exactly one group: the group of its day,
      which is among the groups, and no other; within its group the items keep
      the list's order, and every group has at least one item. */
  lemma GroupedPartition(ps: seq<Performance>)
    ensures forall x :: x in ps ==>
      Day(x) in DaysInOrder(ps) &&
      forall g :: g in Grouped(ps) ==> (x in g.items <==> g.day == Day(x))
    ensures forall j :: 0 <= j < |DaysInOrder(ps)| ==>
      Grouped(ps)[j].day == DaysInOrder(ps)[j] &&
      Grouped(ps)[j].items != [] && IsSubsequence(Grouped(ps)[j].items, ps)
  {
    var ds := DaysInOrder(ps);
    forall x | x in ps
      ensures Day(x) in ds
      ensures forall g :: g in Grouped(ps) ==> (x in g.items <==> g.day == Day(x))
    {
      BucketSpec(ps, Day(x));
      BucketEmptyIffAbsent(ps, Day(x));
      forall g | g in Grouped(ps) ensures x in g.items <==> g.day == Day(x) {
        BucketSpec(ps, g.day);
      }
    }
    forall j | 0 <= j < |ds|
      ensures Grouped(ps)[j].items != [] && IsSubsequence(Grouped(ps)[j].items, ps)
    {
      BucketEmptyIffAbsent(ps, ds[j]);
      BucketSpec(ps, ds[j]);
    }
  }

  /** How one more item changes the grouping: it joins the group of its day if
      there is one, and otherwise opens a new last group. */
  lemma GroupedSnoc(ps: seq<Performance>, x: Performance)
    ensures Day(x) !in DaysInOrder(ps) ==>
      Grouped(ps + [x]) == Grouped(ps) + [DayGroup(Day(x), [x])]
    ensures forall j :: 0 <= j < |DaysInOrder(ps)| && DaysInOrder(ps)[j] == Day(x) ==>
      Grouped(ps + [x]) == Grouped(ps)[j := DayGroup(Day(x), Bucket(ps, Day(x)) + [x])]
  {
    var qs := ps + [x];
    assert qs[..|qs| - 1] == ps;
    var ds := DaysInOrder(ps);
    var gp, gq := Grouped(ps), Grouped(qs);
    DaysDistinct(ps);
    assert forall d :: d != Day(x) ==> Bucket(qs, d) == Bucket(ps, d) + [];
    assert Bucket(qs, Day(x)) == Bucket(ps, Day(x)) + [x];
    if Day(x) !in ds {
      BucketEmptyIffAbsent(ps, Day(x));
      assert DaysInOrder(qs) == ds + [Day(x)];
      forall j | 0 <= j < |gp| ensures gq[j] == gp[j] {
        assert ds[j] in ds;
      }
      assert |gq| == |gp| + 1;
      assert gq[|gp|] == DayGroup(Day(x), Bucket(qs, Day(x)));
      assert Bucket(qs, Day(x)) == [x];
      assert gq == gp + [DayGroup(Day(x), [x])];
    } else {
      assert DaysInOrder(qs) == ds;
      forall j | 0 <= j < |ds| && ds[j] == Day(x)
        ensures gq == gp[j := DayGroup(Day(x), Bucket(ps, Day(x)) + [x])]
      {
        forall i | 0 <= i < |ds| && i != j ensures gq[i] == gp[i] {
          assert ds[i] != Day(x);
        }
      }
    }
  }

  /** Adding an item to one group adds exactly that item to the flattened view. */
  lemma {:induction false} FlattenAddToGroup(gs: seq<DayGroup>, j: int, x: Performance)
    requires 0 <= j < |gs|
    ensures multiset(Flatten(gs[j := DayGroup(gs[j].day, gs[j].items + [x])]))
      == multiset(Flatten(gs)) + multiset{x}
    decreases |gs|
  {
    var hs := gs[j := DayGroup(gs[j].day, gs[j].items + [x])];
    var n := |gs| - 1;
    assert Flatten(gs) == Flatten(gs[..n]) + gs[n].items;
    assert Flatten(hs) == Flatten(hs[..n]) + hs[n].items;
    if j == n {
      assert hs[..n] == gs[..n];
    } else {
      assert hs[..n] == gs[..n][j := DayGroup(gs[j].day, gs[j].items + [x])];
      FlattenAddToGroup(gs[..n], j, x);
    }
  }

  /** Grouping neither loses nor duplicates an item: the groups together hold
      the list's items with their multiplicities. */
  lemma {:induction false} GroupedKeepsItems(ps: seq<Performance>)
    ensures multiset(Flatten(Grouped(ps))) == multiset(ps)
  {
    if ps != [] {
      var init, x := ps[..|ps| - 1], ps[|ps| - 1];
      assert init + [x] == ps;
      GroupedKeepsItems(init);
      GroupedSnoc(init, x);
      var ds := DaysInOrder(init);
      if Day(x) in ds {
        var j :| 0 <= j < |ds| && ds[j] == Day(x);
        FlattenAddToGroup(Grouped(init), j, x);
      } else {
        var gs := Grouped(init) + [DayGroup(Day(x), [x])];
        assert gs[..|gs| - 1] == Grouped(init);
      }
    }
  }

  lemma SortedPrefix(ps: seq<Performance>)
    requires SortedByTime(ps) && ps != []
    ensures SortedByTime(ps[..|ps| - 1])
    ensures |ps| > 1 ==> Day(ps[|ps| - 2]) <= Day(ps[|ps| - 1])
  {
    var init := ps[..|ps| - 1];
    assert forall i :: 0 <= i < |init| ==> init[i] == ps[i];
    if |ps| > 1 {
      DayKeyMonotone(ps[|ps| - 2].dateTime, ps[|ps| - 1].dateTime);
    }
  }

  /** Appending to the last group appends to the flattened view. */
  lemma FlattenAddToLast(gs: seq<DayGroup>, x: Performance)
    requires gs != []
    ensures var last := |gs| - 1;
      Flatten(gs[last := DayGroup(gs[last].day, gs[last].items + [x])]) == Flatten(gs) + [x]
  {
    var last := |gs| - 1;
    var hs := gs[last := DayGroup(gs[last].day, gs[last].items + [x])];
    assert hs[..|hs| - 1] == gs[..|gs| - 1];
  }

  predicate StrictlyAscending(ds: seq<int>) {
    forall i, j :: 0 <= i < j < |ds| ==> ds[i] < ds[j]
  }

  /** A day later than the last of strictly ascending days is new and keeps
      them strictly ascending. */
  lemma AscendingExtend(ds: seq<int>, d: int)
    requires StrictlyAscending(ds) && ds != [] && ds[|ds| - 1] < d
    ensures d !in ds && StrictlyAscending(ds + [d])
  {
    forall i | 0 <= i < |ds| ensures ds[i] < d {
      if i < |ds| - 1 {
        assert ds[i] < ds[|ds| - 1];
      }
    }
  }

  /** An item of the last group's day extends the last group and the flattened view. */
  lemma SameDayStep(ps: seq<Performance>, x: Performance)
    requires DaysInOrder(ps) != [] && Day(x) == DaysInOrder(ps)[|DaysInOrder(ps)| - 1]
    ensures DaysInOrder(ps + [x]) == DaysInOrder(ps)
    ensures Flatten(Grouped(ps + [x])) == Flatten(Grouped(ps)) + [x]
  {
    var qs := ps + [x];
    assert qs[..|qs| - 1] == ps;
    var ds := DaysInOrder(ps);
    var gs := Grouped(ps);
    GroupedSnoc(ps, x);
    assert Grouped(qs) == gs[|ds| - 1 := DayGroup(Day(x), Bucket(ps, Day(x)) + [x])];
    FlattenAddToLast(gs, x);
  }

  /** An item of a new day opens a new last group holding only it. */
  lemma NewDayStep(ps: seq<Performance>, x: Performance)
    requires Day(x) !in DaysInOrder(ps)
    ensures DaysInOrder(ps + [x]) == DaysInOrder(ps) + [Day(x)]
    ensures Flatten(Grouped(ps + [x])) == Flatten(Grouped(ps)) + [x]
  {
    var qs := ps + [x];
    assert qs[..|qs| - 1] == ps;
    GroupedSnoc(ps, x);
    var hs := Grouped(ps) + [DayGroup(Day(x), [x])];
    assert hs[..|hs| - 1] == Grouped(ps);
  }

  /** One more item, no earlier than the last one, keeps the three facts of
      `SortedGrouping`. */
  lemma SortedExtend(init: seq<Performance>, x: Performance)
    requires init != [] && init[|init| - 1].dateTime <= x.dateTime
    requires Flatten(Grouped(init)) == init && StrictlyAscending(DaysInOrder(init))
    requires DaysInOrder(init) != [] && DaysInOrder(init)[|DaysInOrder(init)| - 1] == Day(init[|init| - 1])
    ensures Flatten(Grouped(init + [x])) == init + [x]
    ensures StrictlyAscending(DaysInOrder(init + [x]))
    ensures DaysInOrder(init + [x]) != [] && DaysInOrder(init + [x])[|DaysInOrder(init + [x])| - 1] == Day(x)
  {
    var ds := DaysInOrder(init);
    DayKeyMonotone(init[|init| - 1].dateTime, x.dateTime);
    if Day(x) == ds[|ds| - 1] {
      SameDayStep(init, x);
    } else {
      AscendingExtend(ds, Day(x));
      NewDayStep(init, x);
    }
  }

  /** The three facts of `SortedGrouping` for a non-empty list, from those for
      the list without its last item, which is no earlier than the one before. */
  lemma SortedStep(ps: seq<Performance>)
    requires ps != []
    requires |ps| >= 2 ==> ps[|ps| - 2].dateTime <= ps[|ps| - 1].dateTime
    requires var init := ps[..|ps| - 1];
      Flatten(Grouped(init)) == init && StrictlyAscending(DaysInOrder(init)) &&
      (init != [] ==> DaysInOrder(init) != [] && DaysInOrder(init)[|DaysInOrder(init)| - 1] == Day(init[|init| - 1]))
    ensures Flatten(Grouped(ps)) == ps
    ensures StrictlyAscending(DaysInOrder(ps))
    ensures DaysInOrder(ps) != [] && DaysInOrder(ps)[|DaysInOrder(ps)| - 1] == Day(ps[|ps| - 1])
  {
    var init, x := ps[..|ps| - 1], ps[|ps| - 1];
    assert init + [x] == ps;
    if init == [] {
      NewDayStep(init, x);
    } else {
      assert init[|init| - 1] == ps[|ps| - 2];
      SortedExtend(init, x);
    }
  }

  /** On a list sorted by start time, as the server returns it, the groups come
      in strictly ascending day order, the last group is the last item's day, and
      concatenating the groups reproduces the list exactly. */
  lemma {:induction false} SortedGrouping(ps: seq<Performance>)
    requires SortedByTime(ps)
    ensures Flatten(Grouped(ps)) == ps
    ensures StrictlyAscending(DaysInOrder(ps))
    ensures ps != [] ==> DaysInOrder(ps) != [] && DaysInOrder(ps)[|DaysInOrder(ps)| - 1] == Day(ps[|ps| - 1])
  {
    if ps != [] {
      SortedPrefix(ps);
      SortedGrouping(ps[..|ps| - 1]);
      SortedStep(ps);
    }
  }

  /** The anchor test of the rendering loop: the item is the last one of the last
      group. */
  predicate IsLast(gs: seq<DayGroup>, groupIndex: int, itemIndex: int)
    requires 0 <= groupIndex < |gs|
  {
    groupIndex == |gs| - 1 && itemIndex == |gs[groupIndex].items| - 1
  }

  /** The positions of the rendered items that pass the anchor test. */
  function AnchorPositions(gs: seq<DayGroup>): set<(int, int)>
  {
    set gi, pi | 0 <= gi < |gs| && 0 <= pi < |gs[gi].items| && IsLast(gs, gi, pi) :: (gi, pi)
  }

  /** The performance that carries the anchor, if any item is rendered. */
  function Anchor(gs: seq<DayGroup>): Option<Performance>
  {
    if gs == [] || gs[|gs| - 1].items == [] then None
    else Some(gs[|gs| - 1].items[|gs[|gs| - 1].items| - 1])
  }

  /** Of the items of the grouped view exactly one passes the anchor test (none
      when the view is empty), and it is the item `Anchor` names. */
  lemma ExactlyOneAnchor(ps: seq<Performance>)
    ensures var gs := Grouped(ps);
      (ps == [] ==> AnchorPositions(gs) == {} && Anchor(gs) == None)
      && (ps != [] ==>
        AnchorPositions(gs) == {(|gs| - 1, |gs[|gs| - 1].items| - 1)}
        && Anchor(gs) == Some(gs[|gs| - 1].items[|gs[|gs| - 1].items| - 1]))
  {
    var gs := Grouped(ps);
    GroupedPartition(ps);
    if ps != [] {
      assert ps[0] in ps;
      var last := |gs| - 1;
      assert gs[last].items != [];
      var pos := (last, |gs[last].items| - 1);
      assert pos in AnchorPositions(gs);
    }
  }

  /** The last item of the flattened view is the last item of the last group. */
  lemma FlattenLast(gs: seq<DayGroup>)
    requires gs != [] && gs[|gs| - 1].items != []
    ensures Flatten(gs) != []
    ensures Flatten(gs)[|Flatten(gs)| - 1] == gs[|gs| - 1].items[|gs[|gs| - 1].items| - 1]
  {
    assert Flatten(gs) == Flatten(gs[..|gs| - 1]) + gs[|gs| - 1].items;
  }

  /** On a list sorted by start time the anchor is the list's last item. */
  lemma SortedAnchorIsLastItem(ps: seq<Performance>)
    requires SortedByTime(ps) && ps != []
    ensures Anchor(Grouped(ps)) == Some(ps[|ps| - 1])
  {
    var gs := Grouped(ps);
    var ds := DaysInOrder(ps);
    SortedGrouping(ps);
    BucketEmptyIffAbsent(ps, ds[|ds| - 1]);
    assert gs[|gs| - 1].items == Bucket(ps, ds[|ds| - 1]);
    FlattenLast(gs);
  }
}
