/** Tool 4, statistical evaluation of land-cover changes: from the summary
    table of change tags it computes, per category, the area in each period,
    the net change, the gains and losses, and the categories contributing to
    the net change of one selected category. */
module Evaluation {
  import opened Outcomes
  import opened Collections
  import opened Ordering
  import opened ChangeTags
  import opened Aggregation

  /** The three parallel lists `listCode1`, `listCode2`, `listSumArea`: one
      entry per change combination of the summary table. */
  datatype ChangeLists = ChangeLists(code1s: seq<Code>, code2s: seq<Code>, areas: seq<real>)
  {
    predicate Aligned() {
      |code1s| == |areas| && |code2s| == |areas|
    }

    /** The first `n` change combinations. */
    function Take(n: nat): (p: ChangeLists)
      requires Aligned() && n <= |areas|
      ensures p.Aligned() && |p.areas| == n
    {
      ChangeLists(code1s[..n], code2s[..n], areas[..n])
    }
  }

  lemma TakeStep(l: ChangeLists, i: nat)
    requires l.Aligned() && i < |l.areas|
    ensures l.Take(i + 1).Take(i) == l.Take(i)
    ensures l.Take(i + 1).code1s == l.Take(i).code1s + [l.code1s[i]]
    ensures l.Take(i + 1).code2s == l.Take(i).code2s + [l.code2s[i]]
    ensures l.Take(i + 1).areas == l.Take(i).areas + [l.areas[i]]
  {
    assert l.code1s[..i + 1][..i] == l.code1s[..i];
    assert l.code2s[..i + 1][..i] == l.code2s[..i];
    assert l.areas[..i + 1][..i] == l.areas[..i];
  }

  lemma TakeAll(l: ChangeLists)
    requires l.Aligned()
    ensures l.Take(|l.areas|) == l
  {
    assert l.code1s[..|l.areas|] == l.code1s;
    assert l.code2s[..|l.areas|] == l.code2s;
  }

  // ------------------------------------------------------------------
  // Flows between categories

  /** Area that changed from category `a` to category `b`. */
  function Flow(l: ChangeLists, a: Code, b: Code): real
    requires l.Aligned()
    decreases |l.areas|
  {
    if l.areas == [] then 0.0
    else
      var n := |l.areas| - 1;
      Flow(l.Take(n), a, b) + (if l.code1s[n] == a && l.code2s[n] == b then l.areas[n] else 0.0)
  }

  /** Area that category `c` gained from other categories. */
  function Inflow(l: ChangeLists, c: Code): real
    requires l.Aligned()
    decreases |l.areas|
  {
    if l.areas == [] then 0.0
    else
      var n := |l.areas| - 1;
      Inflow(l.Take(n), c) + (if l.code1s[n] != c && l.code2s[n] == c then l.areas[n] else 0.0)
  }

  /** Area that category `c` lost to other categories. */
  function Outflow(l: ChangeLists, c: Code): real
    requires l.Aligned()
    decreases |l.areas|
  {
    if l.areas == [] then 0.0
    else
      var n := |l.areas| - 1;
      Outflow(l.Take(n), c) + (if l.code1s[n] == c && l.code2s[n] != c then l.areas[n] else 0.0)
  }

  /** One more change combination adds its area to the flows it belongs to. */
  lemma FlowStep(l: ChangeLists, i: nat)
    requires l.Aligned() && i < |l.areas|
    ensures forall a, b :: (Flow(l.Take(i + 1), a, b) ==
      Flow(l.Take(i), a, b) + (if l.code1s[i] == a && l.code2s[i] == b then l.areas[i] else 0.0))
  {
    TakeStep(l, i);
  }

  /** One more change combination adds its area to the gain of its target
      and to the loss of its source when the two differ. */
  lemma InOutflowStep(l: ChangeLists, i: nat)
    requires l.Aligned() && i < |l.areas|
    ensures forall c :: (Inflow(l.Take(i + 1), c) ==
      Inflow(l.Take(i), c) + (if l.code1s[i] != c && l.code2s[i] == c then l.areas[i] else 0.0))
    ensures forall c :: (Outflow(l.Take(i + 1), c) ==
      Outflow(l.Take(i), c) + (if l.code1s[i] == c && l.code2s[i] != c then l.areas[i] else 0.0))
  {
    TakeStep(l, i);
  }

  /** The change combinations whose two codes differ. */
  function WithoutUnchanged(l: ChangeLists): (r: ChangeLists)
    requires l.Aligned()
    ensures r.Aligned()
    decreases |l.areas|
  {
    if l.areas == [] then l
    else
      var n := |l.areas| - 1;
      var p := WithoutUnchanged(l.Take(n));
      if l.code1s[n] == l.code2s[n] then p
      else ChangeLists(p.code1s + [l.code1s[n]], p.code2s + [l.code2s[n]], p.areas + [l.areas[n]])
  }

  /** Area in the second period minus area in the first period is what the
      category gained minus what it lost: a row that stays in the category
      counts in both periods and cancels. */
  lemma {:induction false} NetIsGainPlusLoss(l: ChangeLists, c: Code)
    requires l.Aligned()
    ensures SumFor(l.code2s, l.areas, c) - SumFor(l.code1s, l.areas, c) == Inflow(l, c) - Outflow(l, c)
    decreases |l.areas|
  {
    if l.areas != [] {
      NetIsGainPlusLoss(l.Take(|l.areas| - 1), c);
    }
  }

  /** With nonnegative areas gains and the areas lost are never negative. */
  lemma {:induction false} GainLossSigns(l: ChangeLists, c: Code)
    requires l.Aligned()
    requires forall j :: 0 <= j < |l.areas| ==> l.areas[j] >= 0.0
    ensures Inflow(l, c) >= 0.0 && Outflow(l, c) >= 0.0
    decreases |l.areas|
  {
    if l.areas != [] {
      var n := |l.areas| - 1;
      GainLossSigns(l.Take(n), c);
    }
  }

  /** Taking all but the last of one more combination gives the lists back. */
  lemma SnocTake(p: ChangeLists, a: Code, b: Code, x: real)
    requires p.Aligned()
    ensures ChangeLists(p.code1s + [a], p.code2s + [b], p.areas + [x]).Take(|p.areas|) == p
  {
    assert (p.code1s + [a])[..|p.areas|] == p.code1s;
    assert (p.code2s + [b])[..|p.areas|] == p.code2s;
    assert (p.areas + [x])[..|p.areas|] == p.areas;
  }

  /** Rows whose two codes are equal affect neither gains nor losses. */
  lemma {:induction false} UnchangedRowsIgnored(l: ChangeLists, c: Code)
    requires l.Aligned()
    ensures Inflow(WithoutUnchanged(l), c) == Inflow(l, c)
    ensures Outflow(WithoutUnchanged(l), c) == Outflow(l, c)
    decreases |l.areas|
  {
    if l.areas != [] {
      var n := |l.areas| - 1;
      var p := WithoutUnchanged(l.Take(n));
      UnchangedRowsIgnored(l.Take(n), c);
      if l.code1s[n] != l.code2s[n] {
        SnocTake(p, l.code1s[n], l.code2s[n], l.areas[n]);
      }
    }
  }

  /** Net changes over categories that cover every code sum to zero: both
      periods account for the same total area. */
  lemma NetSumsToZero(l: ChangeLists, cats: seq<Code>, net: seq<real>)
    requires l.Aligned() && Distinct(cats) && |net| == |cats|
    requires forall j :: 0 <= j < |l.areas| ==> l.code1s[j] in cats && l.code2s[j] in cats
    requires forall i :: 0 <= i < |cats| ==>
      net[i] == SumFor(l.code2s, l.areas, cats[i]) - SumFor(l.code1s, l.areas, cats[i])
    ensures Sum(net) == 0.0
  {
    var xs := seq(|cats|, i requires 0 <= i < |cats| => SumFor(l.code2s, l.areas, cats[i]));
    var ys := seq(|cats|, i requires 0 <= i < |cats| => SumFor(l.code1s, l.areas, cats[i]));
    SumOfGroupColumn(xs, cats, l.code2s, l.areas);
    SumOverCover(cats, l.code2s, l.areas);
    SumOfGroupColumn(ys, cats, l.code1s, l.areas);
    SumOverCover(cats, l.code1s, l.areas);
    SumDifference(net, xs, ys);
  }

  // ------------------------------------------------------------------
  // The steps of computeStatistics

  /** Row `j` is the first of the table whose tag has no "_". */
  predicate FirstUntagged(table: seq<StatRow<string>>, j: int) {
    0 <= j < |table| && Separator !in table[j].key &&
    forall i :: 0 <= i < j ==> Separator in table[i].key
  }

  /** The search-cursor loop over the summary table: every change tag is
      split at "_"; a tag without "_" makes the tool fail. */
  method SplitTags(table: seq<StatRow<string>>) returns (r: Result<ChangeLists>)
    ensures r.Ok? <==> forall j :: 0 <= j < |table| ==> Separator in table[j].key
    ensures r.Ok? ==>
      r.value.Aligned() && |r.value.areas| == |table| &&
      forall j :: 0 <= j < |table| ==>
        ParseTag(table[j].key) == Ok((r.value.code1s[j], r.value.code2s[j])) &&
        r.value.areas[j] == table[j].sumArea
    ensures r.Err? ==>
      exists j :: FirstUntagged(table, j) && r.failure == MissingSeparator(table[j].key)
  {
    var code1s: seq<Code> := [];
    var code2s: seq<Code> := [];
    var areas: seq<real> := [];
    for j := 0 to |table|
      invariant |code1s| == j && |code2s| == j && |areas| == j
      invariant forall i :: 0 <= i < j ==>
        ParseTag(table[i].key) == Ok((code1s[i], code2s[i])) && areas[i] == table[i].sumArea
    {
      var parsed := ParseTag(table[j].key);
      if parsed.Err? {
        assert FirstUntagged(table, j);
        return Err(parsed.failure);
      }
      code1s := code1s + [parsed.value.0];
      code2s := code2s + [parsed.value.1];
      areas := areas + [table[j].sumArea];
    }
    return Ok(ChangeLists(code1s, code2s, areas));
  }

  /** The loop that builds `listLC1` and `listSumArea1` (and the same for the
      second period and for the contributors): a new code is appended with
      its area, a known one has its area added at `list.index(code)`. */
  method GroupSum<K(==,!new)>(keys: seq<K>, areas: seq<real>) returns (uniq: seq<K>, sums: seq<real>)
    requires |keys| == |areas|
    ensures uniq == Dedup(keys)
    ensures |sums| == |uniq|
    ensures forall k :: 0 <= k < |uniq| ==> sums[k] == SumFor(keys, areas, uniq[k])
  {
    uniq := [];
    sums := [];
    var i := 0;
    while i < |keys|
      invariant 0 <= i <= |keys|
      invariant uniq == Dedup(keys[..i])
      invariant |sums| == |uniq|
      invariant forall k :: 0 <= k < |uniq| ==> sums[k] == SumFor(keys[..i], areas[..i], uniq[k])
    {
      var code := keys[i];
      assert keys[..i + 1][..i] == keys[..i];
      assert areas[..i + 1] == areas[..i] + [areas[i]];
      assert keys[..i + 1] == keys[..i] + [code];
      if code !in uniq {
        SumForAbsent(keys[..i], areas[..i], code);
        uniq := uniq + [code];
        sums := sums + [areas[i]];
      } else {
        var k := Position(uniq, code);
        sums := sums[k := sums[k] + areas[i]];
      }
      forall k | 0 <= k < |uniq| ensures sums[k] == SumFor(keys[..i + 1], areas[..i + 1], uniq[k]) {
        SumForSnoc(keys[..i], areas[..i], code, areas[i], uniq[k]);
      }
      i := i + 1;
    }
    assert keys[..i] == keys && areas[..i] == areas;
  }

  /** A dictionary built from grouped sums maps every code to its summed
      area. */
  lemma GroupDict<K>(keys: seq<K>, areas: seq<real>, uniq: seq<K>, sums: seq<real>, d: map<K, real>)
    requires |keys| == |areas| && Distinct(uniq) && |sums| == |uniq|
    requires forall k :: 0 <= k < |uniq| ==> sums[k] == SumFor(keys, areas, uniq[k])
    requires forall c :: c in d <==> c in uniq
    requires forall i {:trigger LastOccurrence(uniq, i)} ::
      0 <= i < |uniq| && LastOccurrence(uniq, i) ==> d[uniq[i]] == sums[i]
    ensures forall c :: c in d ==> d[c] == SumFor(keys, areas, c)
  {
    forall c | c in d ensures d[c] == SumFor(keys, areas, c) {
      var i := Position(uniq, c);
      DictOfDistinctKeys(uniq, i);
    }
  }

  /** The three `if` statements of the net-change loop. When the first
      period's dictionary holds exactly the codes of `lc1` and every category
      is in one of the dictionaries, exactly one of them fires per category,
      and an absent period counts as 0. */
  method NetChanges(cats: seq<Code>, lc1: seq<Code>, d1: map<Code, real>, d2: map<Code, real>)
    returns (net: seq<real>)
    ensures (forall c :: c in d1 <==> c in lc1) && (forall c :: c in cats ==> c in d1 || c in d2) ==>
      |net| == |cats| &&
      forall i :: 0 <= i < |cats| ==> net[i] == Get(d2, cats[i], 0.0) - Get(d1, cats[i], 0.0)
  {
    net := [];
    ghost var fits := (forall c :: c in d1 <==> c in lc1) && (forall c :: c in cats ==> c in d1 || c in d2);
    for j := 0 to |cats|
      invariant fits ==> |net| == j
      invariant fits ==> forall i :: 0 <= i < j ==> net[i] == Get(d2, cats[i], 0.0) - Get(d1, cats[i], 0.0)
    {
      var code := cats[j];
      if code in d1 && code in d2 {
        net := net + [d2[code] - d1[code]];
      }
      if code in d1 && code !in d2 {
        net := net + [0.0 - d1[code]];
      }
      if code in d2 && code !in lc1 {
        net := net + [d2[code]];
      }
    }
  }

  /** The nested gain/loss loop: for each category the areas that enter it
      from another category, and minus the areas that leave it. */
  method GainsAndLosses(cats: seq<Code>, l: ChangeLists) returns (gains: seq<real>, losses: seq<real>)
    requires l.Aligned()
    ensures |gains| == |cats| && |losses| == |cats|
    ensures forall i :: 0 <= i < |cats| ==>
      gains[i] == Inflow(l, cats[i]) && losses[i] == -Outflow(l, cats[i])
  {
    gains := [];
    losses := [];
    for j := 0 to |cats|
      invariant |gains| == j && |losses| == j
      invariant forall i :: 0 <= i < j ==>
        gains[i] == Inflow(l, cats[i]) && losses[i] == -Outflow(l, cats[i])
    {
      var code := cats[j];
      var gain := 0.0;
      var loss := 0.0;
      for i := 0 to |l.code1s|
        invariant gain == Inflow(l.Take(i), code) && loss == -Outflow(l.Take(i), code)
      {
        InOutflowStep(l, i);
        if code == l.code1s[i] && code != l.code2s[i] {
          loss := loss - l.areas[i];
        }
        if code != l.code1s[i] && code == l.code2s[i] {
          gain := gain + l.areas[i];
        }
      }
      TakeAll(l);
      if loss != 0.0 {
        losses := losses + [loss];
      } else {
        losses := losses + [0.0];
      }
      if gain != 0.0 {
        gains := gains + [gain];
      } else {
        gains := gains + [0.0];
      }
    }
  }

  /** Appending one contribution adds its area to the sum of its code and to the total. */
  lemma AppendContribution(con: seq<Code>, conArea: seq<real>, c: Code, a: real)
    requires |con| == |conArea|
    ensures forall u :: SumFor(con + [c], conArea + [a], u) == SumFor(con, conArea, u) + (if c == u then a else 0.0)
    ensures Sum(conArea + [a]) == Sum(conArea) + a
  {
    forall u { SumForSnoc(con, conArea, c, a, u); }
    SumSnoc(conArea, a);
  }

  /** One pass of the contributor loop, for the row `c1 -> c2` of area `a`.
      The three conditions of the loop body exclude each other. */
  method ContributeRow(con: seq<Code>, conArea: seq<real>, c1: Code, c2: Code, a: real, codeLC: Code)
    returns (con': seq<Code>, conArea': seq<real>)
    requires |con| == |conArea| && codeLC !in con
    ensures |con'| == |conArea'| && codeLC !in con'
    ensures forall y :: y in con' <==> y in con || (y != codeLC && (y == c1 || y == c2))
    ensures forall u :: u != codeLC ==>
      SumFor(con', conArea', u) == SumFor(con, conArea, u)
        + (if c1 == u && c2 == codeLC then a else 0.0) - (if c1 == codeLC && c2 == u then a else 0.0)
    ensures Sum(conArea') == Sum(conArea)
      + (if c1 != codeLC && c2 == codeLC then a else 0.0) - (if c1 == codeLC && c2 != codeLC then a else 0.0)
  {
    con', conArea' := con, conArea;
    if codeLC == c1 && codeLC != c2 {
      AppendContribution(con, conArea, c2, 0.0 - a);
      con' := con + [c2];
      conArea' := conArea + [0.0 - a];
    } else if codeLC != c1 && codeLC == c2 {
      AppendContribution(con, conArea, c1, a);
      con' := con + [c1];
      conArea' := conArea + [a];
    } else if codeLC != c1 && codeLC != c2 {
      con', conArea' := ListNew(con, conArea, c1, codeLC);
      con', conArea' := ListNew(con', conArea', c2, codeLC);
    }
  }

  /** Lists a code not yet among the contributors with contribution 0. */
  method ListNew(con: seq<Code>, conArea: seq<real>, c: Code, codeLC: Code)
    returns (con': seq<Code>, conArea': seq<real>)
    requires |con| == |conArea| && codeLC !in con && c != codeLC
    ensures |con'| == |conArea'| && codeLC !in con'
    ensures forall y :: y in con' <==> y in con || y == c
    ensures forall u :: SumFor(con', conArea', u) == SumFor(con, conArea, u)
    ensures Sum(conArea') == Sum(conArea)
  {
    con', conArea' := con, conArea;
    if c !in con {
      AppendContribution(con, conArea, c, 0.0);
      con' := con + [c];
      conArea' := conArea + [0.0];
    }
  }

  /** One pass of the contributor loop lists the codes of one more row. */
  lemma ContributorsStep(l: ChangeLists, i: nat, codeLC: Code, con0: seq<Code>, con: seq<Code>)
    requires l.Aligned() && i < |l.areas|
    requires forall x :: x in con0 <==> x != codeLC && (x in l.code1s[..i] || x in l.code2s[..i])
    requires forall y :: y in con <==> y in con0 || (y != codeLC && (y == l.code1s[i] || y == l.code2s[i]))
    ensures forall x :: x in con <==> x != codeLC && (x in l.code1s[..i + 1] || x in l.code2s[..i + 1])
  {
    assert l.code1s[..i + 1] == l.code1s[..i] + [l.code1s[i]];
    assert l.code2s[..i + 1] == l.code2s[..i] + [l.code2s[i]];
  }

  /** One pass of the contributor loop keeps the contribution of every
      other category equal to its flow into minus its flow out of the
      selected category. */
  lemma ContributionStep(l: ChangeLists, i: nat, codeLC: Code,
                         con0: seq<Code>, conArea0: seq<real>, con: seq<Code>, conArea: seq<real>)
    requires l.Aligned() && i < |l.areas| && |con0| == |conArea0| && |con| == |conArea|
    requires forall u :: u != codeLC ==>
      SumFor(con0, conArea0, u) == Flow(l.Take(i), u, codeLC) - Flow(l.Take(i), codeLC, u)
    requires forall u :: u != codeLC ==>
      SumFor(con, conArea, u) == SumFor(con0, conArea0, u)
        + (if l.code1s[i] == u && l.code2s[i] == codeLC then l.areas[i] else 0.0)
        - (if l.code1s[i] == codeLC && l.code2s[i] == u then l.areas[i] else 0.0)
    ensures forall u :: u != codeLC ==>
      SumFor(con, conArea, u) == Flow(l.Take(i + 1), u, codeLC) - Flow(l.Take(i + 1), codeLC, u)
  {
    FlowStep(l, i);
  }

  /** One pass of the contributor loop keeps the total contribution equal
      to what the selected category gained minus what it lost. */
  lemma TotalContributionStep(l: ChangeLists, i: nat, codeLC: Code, conArea0: seq<real>, conArea: seq<real>)
    requires l.Aligned() && i < |l.areas|
    requires Sum(conArea0) == Inflow(l.Take(i), codeLC) - Outflow(l.Take(i), codeLC)
    requires Sum(conArea) == Sum(conArea0)
      + (if l.code1s[i] != codeLC && l.code2s[i] == codeLC then l.areas[i] else 0.0)
      - (if l.code1s[i] == codeLC && l.code2s[i] != codeLC then l.areas[i] else 0.0)
    ensures Sum(conArea) == Inflow(l.Take(i + 1), codeLC) - Outflow(l.Take(i + 1), codeLC)
  {
    InOutflowStep(l, i);
  }

  /** The contributor loop for the selected category `codeLC`: a row leaving
      it contributes minus its area under the target code, a row entering it
      contributes its area under the source code, and a row not touching it
      lists both its codes with contribution 0. */
  method Contributions(l: ChangeLists, codeLC: Code) returns (con: seq<Code>, conArea: seq<real>)
    requires l.Aligned()
    ensures |con| == |conArea|
    ensures codeLC !in con
    ensures forall x :: x in con <==> x != codeLC && (x in l.code1s || x in l.code2s)
    ensures forall u :: u != codeLC ==> SumFor(con, conArea, u) == Flow(l, u, codeLC) - Flow(l, codeLC, u)
    ensures Sum(conArea) == Inflow(l, codeLC) - Outflow(l, codeLC)
  {
    con := [];
    conArea := [];
    for i := 0 to |l.code1s|
      invariant |con| == |conArea| && codeLC !in con
      invariant forall x :: x in con <==> x != codeLC && (x in l.code1s[..i] || x in l.code2s[..i])
      invariant forall u :: u != codeLC ==>
        SumFor(con, conArea, u) == Flow(l.Take(i), u, codeLC) - Flow(l.Take(i), codeLC, u)
      invariant Sum(conArea) == Inflow(l.Take(i), codeLC) - Outflow(l.Take(i), codeLC)
    {
      ghost var con0, conArea0 := con, conArea;
      con, conArea := ContributeRow(con, conArea, l.code1s[i], l.code2s[i], l.areas[i], codeLC);
      ContributorsStep(l, i, codeLC, con0, con);
      ContributionStep(l, i, codeLC, con0, conArea0, con, conArea);
      TotalContributionStep(l, i, codeLC, conArea0, conArea);
    }
    TakeAll(l);
    assert l.code1s[..|l.code1s|] == l.code1s && l.code2s[..|l.code1s|] == l.code2s;
  }

  // ------------------------------------------------------------------
  // The whole computation

  /** Lines 47-91 of `computeStatistics`: the per-period sums, the sorted
      union of the codes of both periods, and the period dictionaries. */
  method CategoryAreas(l: ChangeLists) returns (lc1: seq<Code>, cats: seq<Code>, d1: map<Code, real>, d2: map<Code, real>)
    requires l.Aligned()
    ensures lc1 == Dedup(l.code1s)
    ensures StrictlySorted(cats)
    ensures forall c :: c in cats <==> c in l.code1s || c in l.code2s
    ensures forall c :: (c in d1 <==> c in l.code1s) && (c in d2 <==> c in l.code2s)
    ensures forall c :: Get(d1, c, 0.0) == SumFor(l.code1s, l.areas, c) && Get(d2, c, 0.0) == SumFor(l.code2s, l.areas, c)
  {
    var sums1, lc2, sums2;
    lc1, sums1 := GroupSum(l.code1s, l.areas);
    lc2, sums2 := GroupSum(l.code2s, l.areas);
    var union := AppendNew([], lc1);
    union := AppendNew(union, lc2);
    cats := SortedUnique(union);
    d1 := BuildDict(lc1, sums1);
    d2 := BuildDict(lc2, sums2);
    GroupDict(l.code1s, l.areas, lc1, sums1, d1);
    GroupDict(l.code2s, l.areas, lc2, sums2, d2);
    forall c ensures Get(d1, c, 0.0) == SumFor(l.code1s, l.areas, c) && Get(d2, c, 0.0) == SumFor(l.code2s, l.areas, c) {
      if c !in d1 { SumForAbsent(l.code1s, l.areas, c); }
      if c !in d2 { SumForAbsent(l.code2s, l.areas, c); }
    }
  }

  /** The contributors table: sorted contributor codes and their areas. */
  datatype Contributors = Contributors(codes: seq<Code>, areas: seq<real>)

  /** Reading grouped sums back from the dictionary, with 0 for a missing
      code, gives the summed contribution of every code. */
  lemma LookedUpSums(con: seq<Code>, conArea: seq<real>, codes: seq<Code>, d: map<Code, real>,
                     found: seq<Option<real>>, areas: seq<real>)
    requires |con| == |conArea|
    requires forall c :: c in d ==> d[c] == SumFor(con, conArea, c)
    requires forall c :: c in codes ==> c in d
    requires |found| == |codes| == |areas|
    requires forall i :: 0 <= i < |codes| ==> (found[i].Some? <==> codes[i] in d)
    requires forall i :: 0 <= i < |codes| && codes[i] in d ==> found[i].value == d[codes[i]]
    requires forall i :: 0 <= i < |found| ==> areas[i] == if found[i].Some? then found[i].value else 0.0
    ensures forall i :: 0 <= i < |codes| ==> areas[i] == SumFor(con, conArea, codes[i])
  {
    forall i | 0 <= i < |codes| ensures areas[i] == SumFor(con, conArea, codes[i]) {
      assert codes[i] in codes;
    }
  }

  /** A column with one summed contribution per distinct code, covering all
      contributions, adds up to the total contribution. */
  lemma GroupedColumnTotal(areas: seq<real>, codes: seq<Code>, con: seq<Code>, conArea: seq<real>)
    requires |con| == |conArea| && |areas| == |codes| && Distinct(codes)
    requires forall i :: 0 <= i < |codes| ==> areas[i] == SumFor(con, conArea, codes[i])
    requires forall x :: x in con ==> x in codes
    ensures Sum(areas) == Sum(conArea)
  {
    SumOfGroupColumn(areas, codes, con, conArea);
    forall j | 0 <= j < |con| ensures con[j] in codes {
      assert con[j] in con;
    }
    SumOverCover(codes, con, conArea);
  }

  /** Lines 158-180 of `computeStatistics`: the contributions summed per
      contributor code, with the codes in sorted order. */
  method SortedContributions(con: seq<Code>, conArea: seq<real>) returns (codes: seq<Code>, areas: seq<real>)
    requires |con| == |conArea|
    ensures StrictlySorted(codes) && |areas| == |codes|
    ensures forall x :: x in codes <==> x in con
    ensures forall i :: 0 <= i < |codes| ==> areas[i] == SumFor(con, conArea, codes[i])
    ensures Sum(areas) == Sum(conArea)
  {
    var unCon, unConArea := GroupSum(con, conArea);
    var dictCon := BuildDict(unCon, unConArea);
    GroupDict(con, conArea, unCon, unConArea, dictCon);
    codes := SortedUnique(unCon);
    SortedIsDistinct(codes);
    var found := GetAll(dictCon, codes);
    areas := seq(|found|, i requires 0 <= i < |found| => if found[i].Some? then found[i].value else 0.0);
    LookedUpSums(con, conArea, codes, dictCon, found, areas);
    GroupedColumnTotal(areas, codes, con, conArea);
  }

  /** Lines 139-180 of `computeStatistics`: the contributions to the net
      change of `codeLC`, summed per contributor and listed in sorted order. */
  method ContributorTable(l: ChangeLists, codeLC: Code) returns (t: Contributors)
    requires l.Aligned()
    ensures StrictlySorted(t.codes) && |t.areas| == |t.codes|
    ensures forall x :: x in t.codes <==> x != codeLC && (x in l.code1s || x in l.code2s)
    ensures forall i :: 0 <= i < |t.codes| ==>
      t.areas[i] == Flow(l, t.codes[i], codeLC) - Flow(l, codeLC, t.codes[i])
    ensures Sum(t.areas) == SumFor(l.code2s, l.areas, codeLC) - SumFor(l.code1s, l.areas, codeLC)
  {
    var con, conArea := Contributions(l, codeLC);
    var codes, areas := SortedContributions(con, conArea);
    forall i | 0 <= i < |codes| ensures codes[i] != codeLC {
      assert codes[i] in con;
    }
    NetIsGainPlusLoss(l, codeLC);
    t := Contributors(codes, areas);
  }

  /** The values written to the workbook. `area1[i]`/`area2[i]` are
      `dictLC1.get(...)`/`dictLC2.get(...)`, `None` for a category that does
      not occur in that period. */
  datatype ChangeStatistics = ChangeStatistics(
    changes: ChangeLists,
    categories: seq<Code>,
    area1: seq<Option<real>>,
    area2: seq<Option<real>>,
    net: seq<real>,
    gain: seq<real>,
    loss: seq<real>,
    contributors: Option<Contributors>)

  /** The per-category columns of lines 47-134: sorted categories of both
      periods, the area of each period (`None` when the category does not
      occur in it), the net change, the gain and the loss. */
  ghost predicate CategoryColumns(l: ChangeLists, cats: seq<Code>, area1: seq<Option<real>>, area2: seq<Option<real>>,
                            net: seq<real>, gain: seq<real>, loss: seq<real>)
  {
    l.Aligned() && StrictlySorted(cats) &&
    (forall c :: c in cats <==> c in l.code1s || c in l.code2s) &&
    |area1| == |cats| && |area2| == |cats| && |net| == |cats| && |gain| == |cats| && |loss| == |cats| &&
    (forall i :: 0 <= i < |cats| ==>
      (area1[i].Some? <==> cats[i] in l.code1s) &&
      (area2[i].Some? <==> cats[i] in l.code2s) &&
      (area1[i].Some? ==> area1[i].value == SumFor(l.code1s, l.areas, cats[i])) &&
      (area2[i].Some? ==> area2[i].value == SumFor(l.code2s, l.areas, cats[i])) &&
      net[i] == SumFor(l.code2s, l.areas, cats[i]) - SumFor(l.code1s, l.areas, cats[i]) &&
      gain[i] == Inflow(l, cats[i]) && loss[i] == -Outflow(l, cats[i]) &&
      net[i] == gain[i] + loss[i]) &&
    Sum(net) == 0.0
  }

  /** The contributors table of lines 139-180 for the selected category. */
  ghost predicate ContributorColumns(l: ChangeLists, codeLC: Code, con: Contributors) {
    l.Aligned() && StrictlySorted(con.codes) && |con.areas| == |con.codes| &&
    (forall x :: x in con.codes <==> x != codeLC && (x in l.code1s || x in l.code2s)) &&
    (forall i :: 0 <= i < |con.codes| ==>
      con.areas[i] == Flow(l, con.codes[i], codeLC) - Flow(l, codeLC, con.codes[i])) &&
    Sum(con.areas) == SumFor(l.code2s, l.areas, codeLC) - SumFor(l.code1s, l.areas, codeLC)
  }

  /** The columns computed from the period dictionaries and the flows
      have the meaning CategoryColumns states. */
  lemma ColumnsHold(l: ChangeLists, cats: seq<Code>, d1: map<Code, real>, d2: map<Code, real>,
                    area1: seq<Option<real>>, area2: seq<Option<real>>,
                    net: seq<real>, gains: seq<real>, losses: seq<real>)
    requires l.Aligned() && StrictlySorted(cats)
    requires forall c :: c in cats <==> c in l.code1s || c in l.code2s
    requires forall c :: (c in d1 <==> c in l.code1s) && (c in d2 <==> c in l.code2s)
    requires forall c :: Get(d1, c, 0.0) == SumFor(l.code1s, l.areas, c) && Get(d2, c, 0.0) == SumFor(l.code2s, l.areas, c)
    requires |net| == |cats| && |gains| == |cats| && |losses| == |cats| && |area1| == |cats| && |area2| == |cats|
    requires forall i :: 0 <= i < |cats| ==> net[i] == Get(d2, cats[i], 0.0) - Get(d1, cats[i], 0.0)
    requires forall i :: 0 <= i < |cats| ==> gains[i] == Inflow(l, cats[i]) && losses[i] == -Outflow(l, cats[i])
    requires forall i :: 0 <= i < |cats| ==> (area1[i].Some? <==> cats[i] in d1) && (area2[i].Some? <==> cats[i] in d2)
    requires forall i :: 0 <= i < |cats| && cats[i] in d1 ==> area1[i].value == d1[cats[i]]
    requires forall i :: 0 <= i < |cats| && cats[i] in d2 ==> area2[i].value == d2[cats[i]]
    ensures CategoryColumns(l, cats, area1, area2, net, gains, losses)
  {
    forall i | 0 <= i < |cats|
      ensures net[i] == SumFor(l.code2s, l.areas, cats[i]) - SumFor(l.code1s, l.areas, cats[i])
      ensures net[i] == gains[i] + losses[i]
    {
      NetIsGainPlusLoss(l, cats[i]);
    }
    forall j | 0 <= j < |l.areas| ensures l.code1s[j] in cats && l.code2s[j] in cats {
      assert l.code1s[j] in l.code1s && l.code2s[j] in l.code2s;
    }
    SortedIsDistinct(cats);
    NetSumsToZero(l, cats, net);
  }

  /** Lines 47-134 of `computeStatistics`: everything but the contributors. */
  method CategoryStatistics(l: ChangeLists) returns (s: ChangeStatistics)
    requires l.Aligned()
    ensures s.changes == l && s.contributors == None
    ensures CategoryColumns(l, s.categories, s.area1, s.area2, s.net, s.gain, s.loss)
  {
    var lc1, cats, d1, d2 := CategoryAreas(l);
    assert forall c :: c in d1 <==> c in lc1;
    assert forall c :: c in cats ==> c in d1 || c in d2;
    var net := NetChanges(cats, lc1, d1, d2);
    var gains, losses := GainsAndLosses(cats, l);
    var area1 := GetAll(d1, cats);
    var area2 := GetAll(d2, cats);
    ColumnsHold(l, cats, d1, d2, area1, area2, net, gains, losses);
    s := ChangeStatistics(l, cats, area1, area2, net, gains, losses, None);
  }

  /** `computeStatistics` from the summary table on: split the tags, sum
      the areas per period, form the sorted category union and compute the
      net-change, gain/loss and contributor tables. */
  method ComputeStatistics(table: seq<StatRow<string>>, codeLC: Code) returns (r: Result<ChangeStatistics>)
    ensures r.Ok? <==> forall j :: 0 <= j < |table| ==> Separator in table[j].key
    ensures r.Ok? ==>
      var l := r.value.changes;
      l.Aligned() && |l.areas| == |table| &&
      forall j :: 0 <= j < |table| ==>
        ParseTag(table[j].key) == Ok((l.code1s[j], l.code2s[j])) && l.areas[j] == table[j].sumArea
    ensures r.Ok? ==>
      var s := r.value;
      CategoryColumns(s.changes, s.categories, s.area1, s.area2, s.net, s.gain, s.loss)
    ensures r.Ok? ==> (r.value.contributors.Some? <==> codeLC != "")
    ensures r.Ok? && r.value.contributors.Some? ==>
      ContributorColumns(r.value.changes, codeLC, r.value.contributors.value)
  {
    var split := SplitTags(table);
    if split.Err? {
      return Err(split.failure);
    }
    var l := split.value;
    var s := CategoryStatistics(l);
    if codeLC != "" {
      var t := ContributorTable(l, codeLC);
      s := s.(contributors := Some(t));
    }
    return Ok(s);
  }
}
