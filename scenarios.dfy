/**
 * Scenario facts: the records `width`, `height`, `push(domino(X))`,
 * `domino(X)` and `ball_x(X)` that describe one domino row, the skip
 * window that leaves a gap in the middle of the row, and the generator
 * that enumerates every (ratio, count, skip) combination.
 */
module Scenarios {

  import opened Geometry

  /** One fact of a scenario description; the text format is not modelled. */
  datatype Fact = Width(w: real) | Height(h: real) | Push(pushX: real) | Domino(x: real) | BallX(ballX: real)

  /** Gap between neighbouring dominoes in the generated scenarios. */
  const Spacing: real := 0.5
  /** Gap between the last domino and the ball. */
  const SmallGap: real := 0.1

  /** Index `i` of an `n`-domino row falls in the window of `k` left-out dominoes around the middle. */
  predicate Skipped(n: int, k: int, i: int) {
    var mid := n / 2;
    mid - k / 2 <= i < mid + k / 2
  }

  /** The indices below `i` that are not skipped, in creation order. */
  function EmittedBelow(n: int, k: int, i: nat): seq<nat> {
    if i == 0 then []
    else EmittedBelow(n, k, i - 1) + (if Skipped(n, k, i - 1) then [] else [i - 1])
  }

  lemma EmittedBelowStep(n: int, k: int, i: nat)
    ensures EmittedBelow(n, k, i + 1) == EmittedBelow(n, k, i) + (if Skipped(n, k, i) then [] else [i])
  {
  }

  /** The indices below `i` that are created are exactly those outside the skip window, each once, in increasing order. */
  lemma {:induction false} EmittedBelowMeaning(n: int, k: int, i: nat)
    ensures forall j: int :: j in EmittedBelow(n, k, i) <==> 0 <= j < i && !Skipped(n, k, j)
    ensures forall a :: 0 <= a < |EmittedBelow(n, k, i)| ==> EmittedBelow(n, k, i)[a] < i
    ensures forall a, b :: 0 <= a < b < |EmittedBelow(n, k, i)| ==> EmittedBelow(n, k, i)[a] < EmittedBelow(n, k, i)[b]
  {
    if i > 0 {
      EmittedBelowMeaning(n, k, i - 1);
    }
  }

  /** The indices of an `n`-domino row that get a domino, in creation order. */
  function Emitted(n: int, k: int): seq<nat> {
    EmittedBelow(n, k, if n > 0 then n else 0)
  }

  /** Index `i` gets a domino iff it is in range and outside the skip window. */
  lemma EmittedExactly(n: int, k: int, i: int)
    ensures i in Emitted(n, k) <==> 0 <= i < n && !Skipped(n, k, i)
  {
    EmittedBelowMeaning(n, k, if n > 0 then n else 0);
  }

  /** Creation order is increasing index order. */
  lemma EmittedIncreasing(n: int, k: int, a: int, b: int)
    requires 0 <= a < b < |Emitted(n, k)|
    ensures Emitted(n, k)[a] < Emitted(n, k)[b]
  {
    EmittedBelowMeaning(n, k, if n > 0 then n else 0);
  }

  function DominoX(w: real, i: int): real {
    CentreX(Spacing, w, i)
  }

  lemma DominoXIncreasing(w: real, i: int, j: int)
    requires w + Spacing > 0.0 && i < j
    ensures DominoX(w, i) < DominoX(w, j)
  {
    CentresIncreasing(Spacing, w, i, j);
  }

  /** The ball sits past index n - 1, whether or not that index was skipped. */
  function BallXOf(w: real, n: int): real {
    DominoX(w, n - 1) + w / 2.0 + BallRadius + SmallGap
  }

  /** The push fact for the first created domino, then one domino fact per created domino. */
  function DominoFacts(w: real, e: seq<nat>): (fs: seq<Fact>)
    ensures |fs| == if |e| == 0 then 0 else |e| + 1
  {
    if |e| == 0 then []
    else [Push(DominoX(w, e[0]))] + seq(|e|, t requires 0 <= t < |e| => Domino(DominoX(w, e[t])))
  }

  /** Creating one more domino appends its fact, preceded by the push fact if it is the first. */
  lemma DominoFactsSnoc(w: real, e: seq<nat>, j: nat)
    ensures DominoFacts(w, e + [j]) ==
            DominoFacts(w, e) + ((if |e| == 0 then [Push(DominoX(w, j))] else []) + [Domino(DominoX(w, j))])
  {
    var e' := e + [j];
    if |e| > 0 {
      var lhs := DominoFacts(w, e');
      var rhs := DominoFacts(w, e) + [Domino(DominoX(w, j))];
      assert |lhs| == |rhs|;
      forall t | 0 <= t < |lhs| ensures lhs[t] == rhs[t] {
        if t > 0 && t - 1 < |e| {
          assert e'[t - 1] == e[t - 1];
        }
      }
    }
  }

  lemma AppendAssoc<T>(a: seq<T>, b: seq<T>, c: seq<T>)
    ensures a + b + c == a + (b + c)
  {
  }

  /** The facts the domino loop emits are push and domino facts only. */
  lemma DominoFactsKinds(w: real, e: seq<nat>)
    ensures forall t :: 0 <= t < |DominoFacts(w, e)| ==> DominoFacts(w, e)[t].Push? || DominoFacts(w, e)[t].Domino?
  {
  }

  /** Every fact of the scenario for width `w`, height `h`, `n` dominoes and `k` skipped. */
  function ScenarioFacts(w: real, h: real, n: int, k: int): seq<Fact> {
    [Width(w), Height(h)] + DominoFacts(w, Emitted(n, k)) + [BallX(BallXOf(w, n))]
  }

  /** Where each fact of a scenario stands. */
  lemma ScenarioLayout(w: real, h: real, n: int, k: int)
    ensures var fs := ScenarioFacts(w, h, n, k); var e := Emitted(n, k);
      && |fs| == (if e == [] then 3 else |e| + 4)
      && fs[0] == Width(w) && fs[1] == Height(h) && fs[|fs| - 1] == BallX(BallXOf(w, n))
      && (e != [] ==> fs[2] == Push(DominoX(w, e[0])))
      && (forall t :: 0 <= t < |e| ==> fs[3 + t] == Domino(DominoX(w, e[t])))
  {
    var e := Emitted(n, k);
    var d := DominoFacts(w, e);
    var fs := ScenarioFacts(w, h, n, k);
    assert fs == [Width(w), Height(h)] + d + [BallX(BallXOf(w, n))];
    forall t | 0 <= t < |e| ensures fs[3 + t] == Domino(DominoX(w, e[t])) {
      assert fs[3 + t] == d[1 + t];
    }
    if e != [] {
      assert fs[2] == d[0];
    }
  }

  /**
   * A scenario opens with its width and height facts and closes with its
   * only ball_x fact, placed a small gap past where index n - 1 stands.
   */
  lemma ScenarioFrame(w: real, h: real, n: int, k: int)
    ensures var fs := ScenarioFacts(w, h, n, k);
      && |fs| >= 3 && fs[0] == Width(w) && fs[1] == Height(h)
      && fs[|fs| - 1] == BallX(StartX + ((n - 1) as real) * (w + 0.5) + w / 2.0 + 0.6)
      && (forall t :: 0 <= t < |fs| ==> (fs[t].BallX? <==> t == |fs| - 1))
      && (forall t :: 0 <= t < |fs| ==> (fs[t].Width? <==> t == 0) && (fs[t].Height? <==> t == 1))
  {
    var d := DominoFacts(w, Emitted(n, k));
    var fs := ScenarioFacts(w, h, n, k);
    DominoFactsKinds(w, Emitted(n, k));
    assert fs == [Width(w), Height(h)] + d + [BallX(BallXOf(w, n))];
    forall t | 0 <= t < |fs|
      ensures (fs[t].BallX? <==> t == |fs| - 1) && (fs[t].Width? <==> t == 0) && (fs[t].Height? <==> t == 1)
    {
      if 2 <= t < |fs| - 1 {
        assert fs[t] == d[t - 2];
      }
    }
  }

  /**
   * There is a push fact iff some domino is created; it is then the only
   * one, it stands right before the first domino fact and names the same x.
   */
  lemma PushFactPlacement(w: real, h: real, n: int, k: int)
    ensures var fs := ScenarioFacts(w, h, n, k);
      && (Emitted(n, k) == [] ==> forall t :: 0 <= t < |fs| ==> !fs[t].Push? && !fs[t].Domino?)
      && (Emitted(n, k) != [] ==>
            && (forall t :: 0 <= t < |fs| ==> (fs[t].Push? <==> t == 2))
            && (forall t :: 0 <= t < 3 ==> !fs[t].Domino?)
            && fs[3] == Domino(fs[2].pushX)
            && fs[2].pushX == DominoX(w, Emitted(n, k)[0]))
  {
    ScenarioLayout(w, h, n, k);
    var fs := ScenarioFacts(w, h, n, k);
    var e := Emitted(n, k);
    if e != [] {
      assert fs[3 + 0] == Domino(DominoX(w, e[0]));
      forall t | 0 <= t < |fs| ensures fs[t].Push? <==> t == 2 {
        if 3 <= t < 3 + |e| {
          assert fs[3 + (t - 3)].Domino?;
        }
      }
    }
  }

  /** The domino facts, in output order, are those of the created indices in creation order. */
  lemma DominoFactAt(w: real, h: real, n: int, k: int, t: int)
    requires 0 <= t < |Emitted(n, k)|
    ensures ScenarioFacts(w, h, n, k)[3 + t] == Domino(DominoX(w, Emitted(n, k)[t]))
  {
    ScenarioLayout(w, h, n, k);
  }

  /** Domino facts occur only in the block after the push fact. */
  lemma DominoFactsBlock(w: real, h: real, n: int, k: int, p: int)
    requires 0 <= p < |ScenarioFacts(w, h, n, k)|
    requires ScenarioFacts(w, h, n, k)[p].Domino?
    ensures 3 <= p < 3 + |Emitted(n, k)|
  {
    ScenarioLayout(w, h, n, k);
  }

  /**
   * With a positive pitch, index `i` has a domino fact iff it is in range
   * and outside the skip window.
   */
  lemma {:induction false} DominoFactIff(w: real, h: real, n: int, k: int, i: int)
    requires w + Spacing > 0.0
    ensures Domino(DominoX(w, i)) in ScenarioFacts(w, h, n, k) <==> 0 <= i < n && !Skipped(n, k, i)
  {
    var fs := ScenarioFacts(w, h, n, k);
    var e := Emitted(n, k);
    EmittedExactly(n, k, i);
    if 0 <= i < n && !Skipped(n, k, i) {
      var t :| 0 <= t < |e| && e[t] == i;
      DominoFactAt(w, h, n, k, t);
    }
    if Domino(DominoX(w, i)) in fs {
      var p :| 0 <= p < |fs| && fs[p] == Domino(DominoX(w, i));
      DominoFactsBlock(w, h, n, k, p);
      DominoFactAt(w, h, n, k, p - 3);
      var j := e[p - 3];
      if i < j {
        CentresIncreasing(Spacing, w, i, j);
      } else if j < i {
        CentresIncreasing(Spacing, w, j, i);
      }
      assert i == j;
    }
  }

  /** A domino fact at position p names the x of created index p - 3. */
  lemma DominoFactX(w: real, h: real, n: int, k: int, p: int)
    requires 0 <= p < |ScenarioFacts(w, h, n, k)| && ScenarioFacts(w, h, n, k)[p].Domino?
    ensures 3 <= p < 3 + |Emitted(n, k)|
    ensures ScenarioFacts(w, h, n, k)[p].x == DominoX(w, Emitted(n, k)[p - 3])
  {
    DominoFactsBlock(w, h, n, k, p);
    DominoFactAt(w, h, n, k, p - 3);
  }

  /** With a positive pitch the domino facts' x values strictly increase in output order. */
  lemma {:induction false} DominoFactsIncreasing(w: real, h: real, n: int, k: int, p: int, q: int)
    requires w + Spacing > 0.0
    requires 0 <= p < q < |ScenarioFacts(w, h, n, k)|
    requires ScenarioFacts(w, h, n, k)[p].Domino? && ScenarioFacts(w, h, n, k)[q].Domino?
    ensures ScenarioFacts(w, h, n, k)[p].x < ScenarioFacts(w, h, n, k)[q].x
  {
    DominoFactX(w, h, n, k, p);
    DominoFactX(w, h, n, k, q);
    EmittedXIncreasing(w, n, k, p - 3, q - 3);
  }

  /** Created indices appear in increasing x order. */
  lemma EmittedXIncreasing(w: real, n: int, k: int, a: int, b: int)
    requires w + Spacing > 0.0
    requires 0 <= a < b < |Emitted(n, k)|
    ensures DominoX(w, Emitted(n, k)[a]) < DominoX(w, Emitted(n, k)[b])
  {
    EmittedIncreasing(n, k, a, b);
    DominoXIncreasing(w, Emitted(n, k)[a], Emitted(n, k)[b]);
  }

  /**
   * The body of the generator's innermost loop: appends the facts of one
   * scenario to the shared list `scenario`.
   */
  method AppendScenario(scenario: seq<Fact>, w: real, h: real, n: int, k: int) returns (s: seq<Fact>)
    ensures s == scenario + ScenarioFacts(w, h, n, k)
  {
    s := scenario + [Width(w), Height(h)];
    ghost var head := s;
    var mid := n / 2;
    var skipStart := mid - k / 2;
    var skipEnd := mid + k / 2;
    var pushed := false;
    ghost var created: seq<nat> := [];
    var i := 0;
    while i < n
      invariant 0 <= i <= (if n > 0 then n else 0)
      invariant created == EmittedBelow(n, k, i)
      invariant pushed <==> created != []
      invariant s == head + DominoFacts(w, created)
    {
      EmittedBelowStep(n, k, i);
      if !(skipStart <= i < skipEnd) {
        var dominoX := DominoX(w, i);
        ghost var before := s;
        ghost var added: seq<Fact> := [Domino(dominoX)];
        if !pushed {
          s := s + [Push(dominoX)];
          pushed := true;
          added := [Push(dominoX)] + added;
        }
        s := s + [Domino(dominoX)];
        AppendAssoc(before, added[..|added| - 1], [Domino(dominoX)]);
        assert added[..|added| - 1] + [Domino(dominoX)] == added;
        DominoFactsSnoc(w, created, i);
        AppendAssoc(head, DominoFacts(w, created), added);
        created := created + [i];
      }
      i := i + 1;
    }
    var lastDominoX := DominoX(w, n - 1);
    var ballX := lastDominoX + w / 2.0 + BallRadius + SmallGap;
    s := s + [BallX(ballX)];
    AppendAssoc(head, DominoFacts(w, created), [BallX(ballX)]);
    AppendAssoc(scenario, [Width(w), Height(h)], DominoFacts(w, created) + [BallX(ballX)]);
    AppendAssoc([Width(w), Height(h)], DominoFacts(w, created), [BallX(ballX)]);
  }

  /** One combination of the generator's three parameter lists. */
  datatype Combo<R> = Combo(ratio: R, count: int, skip: int)

  /** The first `a` blocks, concatenated in order. */
  function Concat<T>(blocks: seq<seq<T>>, a: nat): seq<T>
    requires a <= |blocks|
  {
    if a == 0 then [] else Concat(blocks, a - 1) + blocks[a - 1]
  }

  lemma {:induction false} ConcatGrows<T>(blocks: seq<seq<T>>, i: nat, a: nat)
    requires i < a <= |blocks|
    ensures |Concat(blocks, i)| + |blocks[i]| <= |Concat(blocks, a)|
  {
    if i < a - 1 {
      ConcatGrows(blocks, i, a - 1);
    }
  }

  /** Block i starts right after the blocks before it. */
  lemma {:induction false} ConcatBlock<T>(blocks: seq<seq<T>>, a: nat, i: nat, off: int)
    requires i < a <= |blocks| && 0 <= off < |blocks[i]|
    ensures |Concat(blocks, i)| + off < |Concat(blocks, a)|
    ensures Concat(blocks, a)[|Concat(blocks, i)| + off] == blocks[i][off]
  {
    ConcatGrows(blocks, i, a);
    if i < a - 1 {
      ConcatBlock(blocks, a - 1, i, off);
      ConcatGrows(blocks, i, a - 1);
    }
  }

  /** Every position of the concatenation comes from some block. */
  lemma {:induction false} ConcatIndex<T>(blocks: seq<seq<T>>, a: nat, t: int) returns (i: nat, off: nat)
    requires a <= |blocks| && 0 <= t < |Concat(blocks, a)|
    ensures i < a && off < |blocks[i]| && Concat(blocks, a)[t] == blocks[i][off]
  {
    var prev := Concat(blocks, a - 1);
    if t < |prev| {
      i, off := ConcatIndex(blocks, a - 1, t);
    } else {
      i, off := a - 1, t - |prev|;
    }
  }

  lemma MulPred(m: int, c: int)
    ensures m * c == (m - 1) * c + c
  {
  }

  lemma {:induction false} ConcatSize<T>(blocks: seq<seq<T>>, a: nat, len: int)
    requires a <= |blocks|
    requires forall i :: 0 <= i < |blocks| ==> |blocks[i]| == len
    ensures |Concat(blocks, a)| == a * len
  {
    if a > 0 {
      ConcatSize(blocks, a - 1, len);
      MulPred(a, len);
    }
  }

  /** The combinations of one ratio and one count with the first `c` skips. */
  function Cell<R>(r: R, n: int, ks: seq<int>, c: nat): (cell: seq<Combo<R>>)
    requires c <= |ks|
    ensures |cell| == c
  {
    seq(c, l requires 0 <= l < c => Combo(r, n, ks[l]))
  }

  lemma CellSnoc<R>(r: R, n: int, ks: seq<int>, c: nat)
    requires c < |ks|
    ensures Cell(r, n, ks, c + 1) == Cell(r, n, ks, c) + [Combo(r, n, ks[c])]
  {
    assert forall l :: 0 <= l < c + 1 ==> Cell(r, n, ks, c + 1)[l] == (Cell(r, n, ks, c) + [Combo(r, n, ks[c])])[l];
  }

  /** One cell per count, for one ratio. */
  function Cells<R>(r: R, ns: seq<int>, ks: seq<int>): seq<seq<Combo<R>>> {
    seq(|ns|, j requires 0 <= j < |ns| => Cell(r, ns[j], ks, |ks|))
  }

  /** The combinations of one ratio with the first `b` counts, count-major. */
  function Row<R>(r: R, ns: seq<int>, ks: seq<int>, b: nat): seq<Combo<R>>
    requires b <= |ns|
  {
    Concat(Cells(r, ns, ks), b)
  }

  /** One full row per ratio. */
  function Rows<R>(rs: seq<R>, ns: seq<int>, ks: seq<int>): seq<seq<Combo<R>>> {
    seq(|rs|, i requires 0 <= i < |rs| => Row(rs[i], ns, ks, |ns|))
  }

  /** The combinations of the first `a` ratios, ratio-major, then count, then skip. */
  function Triples<R>(rs: seq<R>, ns: seq<int>, ks: seq<int>, a: nat): seq<Combo<R>>
    requires a <= |rs|
  {
    Concat(Rows(rs, ns, ks), a)
  }

  /** Every combination, in the generator's order. */
  function Combos<R>(rs: seq<R>, ns: seq<int>, ks: seq<int>): seq<Combo<R>> {
    Triples(rs, ns, ks, |rs|)
  }

  lemma RowSize<R>(r: R, ns: seq<int>, ks: seq<int>, b: nat)
    requires b <= |ns|
    ensures |Row(r, ns, ks, b)| == b * |ks|
  {
    ConcatSize(Cells(r, ns, ks), b, |ks|);
  }

  lemma TriplesSize<R>(rs: seq<R>, ns: seq<int>, ks: seq<int>, a: nat)
    requires a <= |rs|
    ensures |Triples(rs, ns, ks, a)| == a * (|ns| * |ks|)
  {
    var rows := Rows(rs, ns, ks);
    forall i | 0 <= i < |rows| ensures |rows[i]| == |ns| * |ks| {
      RowSize(rs[i], ns, ks, |ns|);
    }
    ConcatSize(rows, a, |ns| * |ks|);
  }

  /**
   * The enumeration is ratio-major, then count, then skip: it has
   * |rs|·|ns|·|ks| entries and entry i·(|ns|·|ks|) + j·|ks| + l is
   * (rs[i], ns[j], ks[l]).
   */
  lemma CombosAt<R>(rs: seq<R>, ns: seq<int>, ks: seq<int>, i: int, j: int, l: int)
    requires 0 <= i < |rs| && 0 <= j < |ns| && 0 <= l < |ks|
    ensures |Combos(rs, ns, ks)| == |rs| * (|ns| * |ks|)
    ensures i * (|ns| * |ks|) + (j * |ks| + l) < |Combos(rs, ns, ks)|
    ensures Combos(rs, ns, ks)[i * (|ns| * |ks|) + (j * |ks| + l)] == Combo(rs[i], ns[j], ks[l])
  {
    var cells := Cells(rs[i], ns, ks);
    var rows := Rows(rs, ns, ks);
    var off := |Concat(cells, j)| + l;
    assert off < |rows[i]| && rows[i][off] == Combo(rs[i], ns[j], ks[l]) by {
      ConcatBlock(cells, |ns|, j, l);
    }
    ConcatBlock(rows, |rs|, i, off);
    RowSize(rs[i], ns, ks, j);
    TriplesSize(rs, ns, ks, i);
    TriplesSize(rs, ns, ks, |rs|);
  }

  /** Conversely, every entry of the enumeration is the combination of some ratio, count and skip. */
  lemma CombosEntry<R>(rs: seq<R>, ns: seq<int>, ks: seq<int>, t: int) returns (i: nat, j: nat, l: nat)
    requires 0 <= t < |Combos(rs, ns, ks)|
    ensures i < |rs| && j < |ns| && l < |ks|
    ensures Combos(rs, ns, ks)[t] == Combo(rs[i], ns[j], ks[l])
  {
    var off;
    i, off := ConcatIndex(Rows(rs, ns, ks), |rs|, t);
    j, l := ConcatIndex(Cells(rs[i], ns, ks), |ns|, off);
  }

  /** A domino's height is its width times the ratio. */
  function HeightOf(w: real, ratio: real): real {
    w * ratio
  }

  /** The scenario of one combination. */
  function ScenarioOf(w: real, c: Combo<real>): seq<Fact> {
    ScenarioFacts(w, HeightOf(w, c.ratio), c.count, c.skip)
  }

  /** The scenarios the generator yields for the combinations `ts`, in order. */
  function Generated(w: real, ts: seq<Combo<real>>): (out: seq<seq<Fact>>)
    ensures |out| == |ts|
  {
    seq(|ts|, t requires 0 <= t < |ts| => ScenarioOf(w, ts[t]))
  }

  lemma GeneratedSnoc(w: real, ts: seq<Combo<real>>, x: Combo<real>)
    ensures Generated(w, ts + [x]) == Generated(w, ts) + [ScenarioOf(w, x)]
  {
    var lhs := Generated(w, ts + [x]);
    var rhs := Generated(w, ts) + [ScenarioOf(w, x)];
    forall t | 0 <= t < |lhs| ensures lhs[t] == rhs[t] {
      if t < |ts| {
        assert (ts + [x])[t] == ts[t];
      } else {
        assert (ts + [x])[t] == x;
      }
    }
  }

  /**
   * gen_simple: one scenario per combination, ratio-major. Each yielded
   * scenario holds the facts of its own combination only, because the
   * shared list is emptied after every yield.
   */
  method GenSimple(ratios: seq<real>, nums: seq<int>, skips: seq<int>, w: real) returns (yielded: seq<seq<Fact>>)
    ensures yielded == Generated(w, Combos(ratios, nums, skips))
  {
    var scenario: seq<Fact> := [];
    yielded := [];
    ghost var visited: seq<Combo<real>> := [];
    for a := 0 to |ratios|
      invariant visited == Triples(ratios, nums, skips, a)
      invariant yielded == Generated(w, visited)
      invariant scenario == []
    {
      var ratio := ratios[a];
      var h := HeightOf(w, ratio);
      ghost var before := visited;
      for b := 0 to |nums|
        invariant visited == before + Row(ratio, nums, skips, b)
        invariant yielded == Generated(w, visited)
        invariant scenario == []
      {
        var n := nums[b];
        ghost var rowBefore := visited;
        for c := 0 to |skips|
          invariant visited == rowBefore + Cell(ratio, n, skips, c)
          invariant yielded == Generated(w, visited)
          invariant scenario == []
        {
          var k := skips[c];
          scenario := AppendScenario(scenario, w, h, n, k);
          assert scenario == ScenarioOf(w, Combo(ratio, n, k)) by {
            assert [] + ScenarioFacts(w, h, n, k) == ScenarioFacts(w, h, n, k);
            assert ScenarioOf(w, Combo(ratio, n, k)) == ScenarioFacts(w, h, n, k);
          }
          GeneratedSnoc(w, visited, Combo(ratio, n, k));
          yielded := yielded + [scenario];
          scenario := [];
          CellSnoc(ratio, n, skips, c);
          assert visited + [Combo(ratio, n, k)] == rowBefore + (Cell(ratio, n, skips, c) + [Combo(ratio, n, k)]);
          visited := visited + [Combo(ratio, n, k)];
        }
        assert visited == before + (Row(ratio, nums, skips, b) + Cell(ratio, n, skips, |skips|));
      }
    }
  }

  const DefaultRatios: seq<real> := [3.0, 6.0, 9.0, 12.0]
  const DefaultCounts: seq<int> := [5, 10, 20]
  const DefaultSkips: seq<int> := [0, 2, 4]
  const DefaultWidth: real := 0.2

  /**
   * Scenario i·(|ns|·|ks|) + j·|ks| + l of the generator's output is that
   * of ratio rs[i], count ns[j] and skip ks[l], with height w·rs[i].
   */
  lemma GeneratedAt(w: real, rs: seq<real>, ns: seq<int>, ks: seq<int>, i: int, j: int, l: int)
    requires 0 <= i < |rs| && 0 <= j < |ns| && 0 <= l < |ks|
    ensures |Generated(w, Combos(rs, ns, ks))| == |rs| * (|ns| * |ks|)
    ensures i * (|ns| * |ks|) + (j * |ks| + l) < |rs| * (|ns| * |ks|)
    ensures Generated(w, Combos(rs, ns, ks))[i * (|ns| * |ks|) + (j * |ks| + l)] ==
            ScenarioFacts(w, HeightOf(w, rs[i]), ns[j], ks[l])
  {
    var cs := Combos(rs, ns, ks);
    var idx := i * (|ns| * |ks|) + (j * |ks| + l);
    CombosAt(rs, ns, ks, i, j, l);
    var c := cs[idx];
    assert c == Combo(rs[i], ns[j], ks[l]);
    assert Generated(w, cs)[idx] == ScenarioOf(w, c);
  }

  /** Scenario (i·3 + j)·3 + l of a generator run at the default width over three counts and three skips. */
  lemma GeneratedAtDefaultWidth(rs: seq<real>, ns: seq<int>, ks: seq<int>, i: int, j: int, l: int)
    requires |ns| == 3 && |ks| == 3
    requires 0 <= i < |rs| && 0 <= j < 3 && 0 <= l < 3
    ensures |Generated(DefaultWidth, Combos(rs, ns, ks))| == 9 * |rs|
    ensures (i * 3 + j) * 3 + l < 9 * |rs|
    ensures Generated(DefaultWidth, Combos(rs, ns, ks))[(i * 3 + j) * 3 + l] ==
            ScenarioFacts(0.2, 0.2 * rs[i], ns[j], ks[l])
  {
    assert |ns| * |ks| == 9;
    assert (i * 3 + j) * 3 + l == i * (|ns| * |ks|) + (j * |ks| + l);
    GeneratedAt(DefaultWidth, rs, ns, ks, i, j, l);
    assert HeightOf(DefaultWidth, rs[i]) == 0.2 * rs[i];
  }

  lemma DefaultSizes()
    ensures |DefaultRatios| == 4 && |DefaultCounts| == 3 && |DefaultSkips| == 3
  {
  }

  /** What the generator yields when called with its default arguments. */
  function DefaultGenerated(): seq<seq<Fact>> {
    Generated(DefaultWidth, Combos(DefaultRatios, DefaultCounts, DefaultSkips))
  }

  /**
   * With its default arguments the generator yields 36 scenarios, and
   * scenario (i·3 + j)·3 + l is ratio i, count j, skip l with height 0.2·ratio.
   */
  lemma DefaultScenarios(i: int, j: int, l: int)
    requires 0 <= i < 4 && 0 <= j < 3 && 0 <= l < 3
    ensures |DefaultGenerated()| == 36
    ensures DefaultGenerated()[(i * 3 + j) * 3 + l] ==
            ScenarioFacts(0.2, 0.2 * DefaultRatios[i], DefaultCounts[j], DefaultSkips[l])
  {
    DefaultSizes();
    GeneratedAtDefaultWidth(DefaultRatios, DefaultCounts, DefaultSkips, i, j, l);
  }
}
