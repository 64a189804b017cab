/**
 * The agent model: a feed-forward network stored as a list of weight
 * matrices, one per layer, each with a trailing bias column; and the
 * genetic operators that build, copy, serialise, mutate and cross networks.
 *
 * Weights are exact reals. The random draws of the original are supplied
 * as oracle functions whose values lie in the ranges the random source
 * guarantees.
 */
module Network {
  import opened Failures

  /** A two-dimensional weight array with its shape. */
  datatype Matrix = Matrix(rows: nat, cols: nat, w: seq<seq<real>>)

  predicate Rectangular(m: Matrix) {
    |m.w| == m.rows && forall i :: 0 <= i < m.rows ==> |m.w[i]| == m.cols
  }

  /** A layer: a rectangular matrix, rows = output nodes, cols = input nodes + 1. */
  type Layer = m: Matrix | Rectangular(m) witness Matrix(0, 0, [])

  /** Layer i of the list feeds layer i + 1: the next layer has a row to index and
      one column per output of this layer plus the bias column. */
  predicate Links(ms: seq<Layer>, i: int)
    requires 1 <= i < |ms|
  {
    ms[i].rows > 0 && ms[i].cols == ms[i - 1].rows + 1
  }

  /** The shape chain the constructor accepts: at least two layers, a first layer
      with a column to index, and every later layer linked to its predecessor. */
  predicate ValidChain(ms: seq<Layer>) {
    && |ms| >= 2
    && ms[0].cols > 0
    && forall i :: 1 <= i < |ms| ==> Links(ms, i)
  }

  /** The constructor's check: walks the layers in order, keeping the previous
      layer's output count, and fails at the first layer that breaks the chain;
      fewer than two layers also fail. The layers are kept in the given order. */
  method BuildLayers(ms: seq<Layer>) returns (r: Result<seq<Layer>>)
    ensures r.Ok? <==> ValidChain(ms)
    ensures r.Ok? ==> r.value == ms
  {
    if |ms| == 0 {
      return Err(ExhaustedError);
    }
    var first := ms[0];
    if first.cols == 0 {
      return Err(IndexError);
    }
    var lastOutputLength := first.rows;
    var layers := [first];
    var i := 1;
    while i < |ms|
      invariant 1 <= i <= |ms|
      invariant layers == ms[..i]
      invariant lastOutputLength == ms[i - 1].rows
      invariant forall j :: 1 <= j < i ==> Links(ms, j)
    {
      var matrix := ms[i];
      if matrix.rows == 0 {
        assert !Links(ms, i);
        return Err(IndexError);
      }
      if matrix.cols == lastOutputLength + 1 {
        lastOutputLength := matrix.rows;
        layers := layers + [matrix];
      } else {
        assert !Links(ms, i);
        return Err(StructureError);
      }
      i := i + 1;
    }
    if |layers| < 2 {
      return Err(StructureError);
    }
    return Ok(layers);
  }

  /** Two layers have the same numpy shape. */
  predicate SameShape(a: Layer, b: Layer) {
    a.rows == b.rows && a.cols == b.cols
  }

  predicate SameShapes(xs: seq<Layer>, ys: seq<Layer>) {
    |xs| == |ys| && forall l :: 0 <= l < |xs| ==> SameShape(xs[l], ys[l])
  }

  /** The constructor's check depends only on the shapes. */
  lemma ChainByShape(xs: seq<Layer>, ys: seq<Layer>)
    requires SameShapes(xs, ys) && ValidChain(xs)
    ensures ValidChain(ys)
  {
    forall i | 1 <= i < |ys|
      ensures Links(ys, i)
    {
      assert Links(xs, i);
      assert SameShape(xs[i], ys[i]) && SameShape(xs[i - 1], ys[i - 1]);
    }
  }

  // ---------------------------------------------------------------------------
  // Random construction

  /** The matrix `np.random.rand(rows, inputs + 1)` of layer l, drawn from `rand`. */
  function RandomMatrix(rows: nat, inputs: nat, l: nat, rand: (nat, nat, nat) -> real): (m: Layer)
    ensures m.rows == rows && m.cols == inputs + 1
    ensures forall i, j :: 0 <= i < rows && 0 <= j <= inputs ==> m.w[i][j] == rand(l, i, j)
  {
    Matrix(rows, inputs + 1, seq(rows, i requires 0 <= i < rows =>
      seq(inputs + 1, j requires 0 <= j <= inputs => rand(l, i, j))))
  }

  /** The layer list `from_random` builds from node counts: layer l maps sizes[l]
      inputs (plus bias) to sizes[l + 1] outputs, every weight in [0, 1). Fewer
      than three node counts fail. */
  method RandomLayers(sizes: seq<nat>, rand: (nat, nat, nat) -> real) returns (r: Result<seq<Layer>>)
    requires forall l, i, j :: 0.0 <= rand(l, i, j) < 1.0
    ensures r.Ok? <==> |sizes| >= 3
    ensures r.Ok? ==> |r.value| == |sizes| - 1
    ensures r.Ok? ==> forall l :: 0 <= l < |r.value| ==> r.value[l] == RandomMatrix(sizes[l + 1], sizes[l], l, rand)
    ensures r.Ok? ==> forall l :: 0 <= l < |r.value| ==>
      r.value[l].rows == sizes[l + 1] && r.value[l].cols == sizes[l] + 1
    ensures r.Ok? ==> forall l, i, j :: 0 <= l < |r.value| && 0 <= i < r.value[l].rows && 0 <= j < r.value[l].cols ==>
      0.0 <= r.value[l].w[i][j] < 1.0
  {
    if |sizes| == 0 {
      return Err(ExhaustedError);
    }
    var sizeOfLastLayer := sizes[0];
    var count := 1;
    var layers: seq<Layer> := [];
    while count < |sizes|
      invariant 1 <= count <= |sizes|
      invariant sizeOfLastLayer == sizes[count - 1]
      invariant |layers| == count - 1
      invariant forall l :: 0 <= l < |layers| ==> layers[l] == RandomMatrix(sizes[l + 1], sizes[l], l, rand)
    {
      var size := sizes[count];
      layers := layers + [RandomMatrix(size, sizeOfLastLayer, count - 1, rand)];
      sizeOfLastLayer := size;
      count := count + 1;
    }
    if count < 3 {
      return Err(StructureError);
    }
    forall l, i, j | 0 <= l < |layers| && 0 <= i < layers[l].rows && 0 <= j < layers[l].cols
      ensures 0.0 <= layers[l].w[i][j] < 1.0
    {
      assert layers[l] == RandomMatrix(sizes[l + 1], sizes[l], l, rand);
    }
    forall l | 0 <= l < |layers|
      ensures layers[l].rows == sizes[l + 1] && layers[l].cols == sizes[l] + 1
    {
      assert layers[l] == RandomMatrix(sizes[l + 1], sizes[l], l, rand);
    }
    return Ok(layers);
  }

  /** Layers shaped from node counts chain exactly when every node count from the
      third on is positive (a later layer with no rows cannot be indexed). */
  lemma RandomShapesChain(sizes: seq<nat>, ls: seq<Layer>)
    requires |sizes| >= 3 && |ls| == |sizes| - 1
    requires forall l :: 0 <= l < |ls| ==> ls[l].rows == sizes[l + 1] && ls[l].cols == sizes[l] + 1
    ensures ValidChain(ls) <==> forall i :: 2 <= i < |sizes| ==> sizes[i] > 0
  {
    if forall i :: 2 <= i < |sizes| ==> sizes[i] > 0 {
      forall i | 1 <= i < |ls|
        ensures Links(ls, i)
      {
        assert sizes[i + 1] > 0;
      }
    } else {
      var i :| 2 <= i < |sizes| && sizes[i] == 0;
      assert !Links(ls, i - 1);
    }
  }

  // ---------------------------------------------------------------------------
  // Serialisation

  /** `tolist()` of every layer: a list of layers of rows of weights. */
  function ExportLayers(ls: seq<Layer>): (e: seq<seq<seq<real>>>)
    ensures |e| == |ls|
  {
    seq(|ls|, l requires 0 <= l < |ls| => ls[l].w)
  }

  /** `np.array(rows)` as a two-dimensional array: it needs at least one row (an
      empty list becomes a one-dimensional array, which the constructor cannot
      index as a matrix) and rows of equal length. */
  function ToLayer(rows: seq<seq<real>>): Option<Layer> {
    if |rows| > 0 && forall i :: 0 <= i < |rows| ==> |rows[i]| == |rows[0]| then
      var m: Layer := Matrix(|rows|, |rows[0]|, rows);
      Some(m)
    else
      None
  }

  /** Rows of unequal length, which `np.array` refuses outright. */
  predicate Ragged(rows: seq<seq<real>>) {
    exists i :: 0 <= i < |rows| && |rows[i]| != |rows[0]|
  }

  /** `from_export`: converts every exported matrix (a ragged one fails there),
      then runs the constructor's check, which cannot index an empty matrix. */
  function ImportLayers(e: seq<seq<seq<real>>>): (r: Result<seq<Layer>>)
    ensures r.Ok? ==> ValidChain(r.value) && ExportLayers(r.value) == e
  {
    if exists l :: 0 <= l < |e| && Ragged(e[l]) then
      Err(ValueError)
    else if forall l :: 0 <= l < |e| ==> ToLayer(e[l]).Some? then
      var ms: seq<Layer> := seq(|e|, l requires 0 <= l < |e| => ToLayer(e[l]).value);
      if ValidChain(ms) then Ok(ms) else Err(StructureError)
    else
      Err(IndexError)
  }

  /** Export then import gives back the same layers, provided the first layer has
      a row (all later layers have one by the chain check). */
  lemma RoundTrip(ls: seq<Layer>)
    requires ValidChain(ls) && ls[0].rows > 0
    ensures ImportLayers(ExportLayers(ls)) == Ok(ls)
  {
    var e := ExportLayers(ls);
    forall l | 0 <= l < |e|
      ensures ToLayer(e[l]) == Some(ls[l])
    {
      if l > 0 {
        assert Links(ls, l);
      }
      assert e[l] == ls[l].w;
    }
    var ms: seq<Layer> := seq(|e|, l requires 0 <= l < |e| => ToLayer(e[l]).value);
    assert ms == ls;
  }

  /** A network whose first layer has no rows is accepted by the constructor but
      does not survive export and import: its first matrix exports as an empty list. */
  lemma RowlessFirstLayerLost(ls: seq<Layer>)
    requires ValidChain(ls) && ls[0].rows == 0
    ensures ImportLayers(ExportLayers(ls)).Err?
  {
    assert ExportLayers(ls)[0] == [];
  }

  // ---------------------------------------------------------------------------
  // Forward inference

  function Dot(a: seq<real>, b: seq<real>): real
    requires |a| == |b|
  {
    if |a| == 0 then 0.0 else a[0] * b[0] + Dot(a[1..], b[1..])
  }

  /** The layer's weights applied to a vector: one dot product per row. */
  function MatVec(m: Layer, v: seq<real>): (r: seq<real>)
    requires m.cols == |v|
    ensures |r| == m.rows
  {
    seq(m.rows, i requires 0 <= i < m.rows => Dot(m.w[i], v))
  }

  /** The rectifier max(x, 0), element by element. */
  function Relu(v: seq<real>): (r: seq<real>)
    ensures |r| == |v|
    ensures forall i :: 0 <= i < |v| ==> r[i] >= 0.0 && r[i] >= v[i] && (r[i] == v[i] || r[i] == 0.0)
  {
    seq(|v|, i requires 0 <= i < |v| => if v[i] > 0.0 then v[i] else 0.0)
  }

  /** The layers accept a vector of n values: each layer's columns equal the
      previous vector's length plus the bias entry. */
  predicate Feeds(ls: seq<Layer>, n: nat)
    decreases |ls|
  {
    ls == [] || (ls[0].cols == n + 1 && Feeds(ls[1..], ls[0].rows))
  }

  lemma {:induction false} ChainFeedsFrom(ls: seq<Layer>, k: nat)
    requires ValidChain(ls) && 1 <= k <= |ls|
    ensures Feeds(ls[k..], ls[k - 1].rows)
    decreases |ls| - k
  {
    if k < |ls| {
      assert Links(ls, k);
      ChainFeedsFrom(ls, k + 1);
      assert ls[k..][1..] == ls[k + 1..];
    }
  }

  /** A valid chain accepts exactly the vectors one shorter than its first layer's width. */
  lemma ChainFeeds(ls: seq<Layer>)
    requires ValidChain(ls)
    ensures Feeds(ls, ls[0].cols - 1)
  {
    ChainFeedsFrom(ls, 1);
    assert ls[1..] == ls[1..];
  }

  /** The output of the layers, before the final softmax: for each layer in turn,
      append the bias input 1, multiply by the matrix and apply the rectifier. */
  function Forward(ls: seq<Layer>, v: seq<real>): (out: seq<real>)
    requires Feeds(ls, |v|)
    ensures |out| == if ls == [] then |v| else ls[|ls| - 1].rows
    decreases |ls|
  {
    if ls == [] then v else Forward(ls[1..], Relu(MatVec(ls[0], v + [1.0])))
  }

  /** The output has one entry per row of the last layer, all non-negative. */
  lemma {:induction false} ForwardShape(ls: seq<Layer>, v: seq<real>)
    requires Feeds(ls, |v|) && ls != []
    ensures |Forward(ls, v)| == ls[|ls| - 1].rows
    ensures forall i :: 0 <= i < |Forward(ls, v)| ==> Forward(ls, v)[i] >= 0.0
    decreases |ls|
  {
    var next := Relu(MatVec(ls[0], v + [1.0]));
    if |ls| > 1 {
      ForwardShape(ls[1..], next);
    }
  }

  // ---------------------------------------------------------------------------
  // Mutation

  /** The number of nodes (rows) across all layers. */
  function SumRows(ls: seq<Layer>): nat {
    if ls == [] then 0 else ls[0].rows + SumRows(ls[1..])
  }

  lemma {:induction false} SumRowsSplit(ls: seq<Layer>, l: nat)
    requires l <= |ls|
    ensures SumRows(ls) == SumRows(ls[..l]) + SumRows(ls[l..])
  {
    if l == 0 {
      assert ls[..0] == [] && ls[0..] == ls;
    } else {
      SumRowsSplit(ls[1..], l - 1);
      assert ls[1..][..l - 1] == ls[..l][1..];
      assert ls[1..][l - 1..] == ls[l..];
    }
  }

  /** A valid chain has at least one node: its second layer has a row. */
  lemma ChainHasNodes(ls: seq<Layer>)
    requires ValidChain(ls)
    ensures SumRows(ls) > 0
  {
    assert Links(ls, 1);
    assert ls[1..][0] == ls[1];
  }

  lemma {:induction false} SumRowsByShape(xs: seq<Layer>, ys: seq<Layer>)
    requires SameShapes(xs, ys)
    ensures SumRows(xs) == SumRows(ys)
  {
    if xs != [] {
      assert SameShape(xs[0], ys[0]);
      SumRowsByShape(xs[1..], ys[1..]);
    }
  }

  /** The (layer, row) that a global node index names, counting the rows of the
      layers one layer after another. */
  function Locate(ls: seq<Layer>, k: nat): (lr: (nat, nat))
    requires k < SumRows(ls)
    ensures lr.0 < |ls| && lr.1 < ls[lr.0].rows
    ensures k == SumRows(ls[..lr.0]) + lr.1
  {
    if k < ls[0].rows then
      assert ls[..0] == [];
      (0, k)
    else
      var lr := Locate(ls[1..], k - ls[0].rows);
      assert ls[..lr.0 + 1][1..] == ls[1..][..lr.0];
      (lr.0 + 1, lr.1)
  }

  /** The decomposition is unique: each (layer, row) has one global index. */
  lemma {:induction false} LocateUnique(ls: seq<Layer>, l: nat, r: nat)
    requires l < |ls| && r < ls[l].rows
    ensures SumRows(ls[..l]) + r < SumRows(ls)
    ensures Locate(ls, SumRows(ls[..l]) + r) == (l, r)
  {
    if l == 0 {
      assert ls[..0] == [];
    } else {
      assert ls[..l][1..] == ls[1..][..l - 1];
      LocateUnique(ls[1..], l - 1, r);
    }
  }

  /** Networks of the same shapes number their nodes alike. */
  lemma {:induction false} LocateByShape(a: seq<Layer>, b: seq<Layer>, k: nat)
    requires SameShapes(a, b) && k < SumRows(a)
    ensures SumRows(b) == SumRows(a) && Locate(b, k) == Locate(a, k)
  {
    SumRowsByShape(a, b);
    assert SameShape(a[0], b[0]);
    if k >= a[0].rows {
      LocateByShape(a[1..], b[1..], k - a[0].rows);
    }
  }

  /** One mutation delta vector: `random_sample(n) * 2.0 - 1.0`. */
  function Delta(draw: (nat, nat) -> real, t: nat, n: nat): seq<real> {
    seq(n, j requires 0 <= j < n => draw(t, j) * 2.0 - 1.0)
  }

  lemma DeltaRange(draw: (nat, nat) -> real, t: nat, n: nat)
    requires forall t', j :: 0.0 <= draw(t', j) < 1.0
    ensures forall j :: 0 <= j < n ==> -1.0 <= Delta(draw, t, n)[j] < 1.0
  {
  }

  /** Row r of the matrix with `delta` added to it element by element. */
  function AddToRow(m: Layer, r: nat, delta: seq<real>): (m': Layer)
    requires r < m.rows && |delta| == m.cols
  {
    Matrix(m.rows, m.cols, m.w[r := seq(m.cols, j requires 0 <= j < m.cols => m.w[r][j] + delta[j])])
  }

  /** One round of mutation: the node at global index k gets `delta` added. */
  function MutateRound(ls: seq<Layer>, k: nat, delta: seq<real>): (r: seq<Layer>)
    requires k < SumRows(ls) && |delta| == ls[Locate(ls, k).0].cols
    ensures SameShapes(r, ls)
  {
    var (l, r) := Locate(ls, k);
    ls[l := AddToRow(ls[l], r, delta)]
  }

  /** `randint(total)` in round t: the oracle's value brought into [0, total). */
  function Pick(pick: (nat, nat) -> nat, t: nat, total: nat): (k: nat)
    requires total > 0
    ensures k < total
  {
    pick(t, total) % total
  }

  /** The layers after `rounds` rounds of mutation, round t picking the node
      index Pick(pick, t, total) and drawing its delta from draw(t, _). */
  function Mutated(ls: seq<Layer>, total: nat, rounds: nat, pick: (nat, nat) -> nat, draw: (nat, nat) -> real): (r: seq<Layer>)
    requires ValidChain(ls) && total == SumRows(ls)
    ensures SameShapes(r, ls) && ValidChain(r)
    decreases rounds, 1
  {
    if rounds == 0 then ls else AfterRound(ls, total, rounds - 1, pick, draw)
  }

  /** The layers after round t of mutation: the node index Pick(pick, t, total) of
      the layers after the earlier rounds gets the delta drawn from draw(t, _). */
  function AfterRound(ls: seq<Layer>, total: nat, t: nat, pick: (nat, nat) -> nat, draw: (nat, nat) -> real): (r: seq<Layer>)
    requires ValidChain(ls) && total == SumRows(ls)
    ensures SameShapes(r, ls) && ValidChain(r)
    decreases t + 1, 0
  {
    var prev := Mutated(ls, total, t, pick, draw);
    ChainHasNodes(ls);
    SumRowsByShape(prev, ls);
    ChainByShape(ls, prev);
    var k := Pick(pick, t, total);
    var next := MutateRound(prev, k, Delta(draw, t, prev[Locate(prev, k).0].cols));
    ChainByShape(prev, next);
    next
  }

  /** One more round of mutation updates the row that the picked index names. */
  lemma MutatedStep(ls: seq<Layer>, total: nat, rounds: nat, pick: (nat, nat) -> nat, draw: (nat, nat) -> real, l: nat, row: nat)
    requires ValidChain(ls) && total == SumRows(ls) && total > 0
    requires var prev := Mutated(ls, total, rounds, pick, draw);
      SumRows(prev) == total && (l, row) == Locate(prev, Pick(pick, rounds, total))
    ensures var prev := Mutated(ls, total, rounds, pick, draw);
      Mutated(ls, total, rounds + 1, pick, draw) == prev[l := AddToRow(prev[l], row, Delta(draw, rounds, prev[l].cols))]
  {
    assert Mutated(ls, total, rounds + 1, pick, draw) == AfterRound(ls, total, rounds, pick, draw);
  }

  /** `mutate(n)` touches only the rows it picks: a row that no round names keeps
      its weights through all the rounds, so at most `rounds` rows change. */
  lemma {:induction false} MutatedKeeps(ls: seq<Layer>, total: nat, rounds: nat, pick: (nat, nat) -> nat, draw: (nat, nat) -> real, l: nat, r: nat)
    requires ValidChain(ls) && total == SumRows(ls) && total > 0
    requires l < |ls| && r < ls[l].rows
    requires forall t :: 0 <= t < rounds ==> Locate(ls, Pick(pick, t, total)) != (l, r)
    ensures Mutated(ls, total, rounds, pick, draw)[l].w[r] == ls[l].w[r]
  {
    if rounds > 0 {
      var t := rounds - 1;
      MutatedKeeps(ls, total, t, pick, draw, l, r);
      var prev := Mutated(ls, total, t, pick, draw);
      var k := Pick(pick, t, total);
      SumRowsByShape(prev, ls);
      LocateByShape(prev, ls, k);
      var lr := Locate(prev, k);
      MutatedStep(ls, total, t, pick, draw, lr.0, lr.1);
      OtherRowKept(prev, lr.0, lr.1, Delta(draw, t, prev[lr.0].cols), l, r);
    }
  }

  /** Adding to one row leaves every other row's weights alone. */
  lemma OtherRowKept(ls: seq<Layer>, l': nat, r': nat, delta: seq<real>, l: nat, r: nat)
    requires l' < |ls| && r' < ls[l'].rows && |delta| == ls[l'].cols
    requires l < |ls| && r < ls[l].rows && (l', r') != (l, r)
    ensures ls[l' := AddToRow(ls[l'], r', delta)][l].w[r] == ls[l].w[r]
  {
  }

  /** A round of mutation keeps every shape, adds a delta in [-1, 1) to each weight
      of the selected row, and leaves every other row as it was. */
  lemma MutateRoundEffect(ls: seq<Layer>, k: nat, draw: (nat, nat) -> real, t: nat)
    requires k < SumRows(ls)
    requires forall t', j :: 0.0 <= draw(t', j) < 1.0
    ensures var (l, r) := Locate(ls, k);
      var after := MutateRound(ls, k, Delta(draw, t, ls[l].cols));
      && SameShapes(after, ls)
      && (forall j :: 0 <= j < ls[l].cols ==>
            -1.0 <= after[l].w[r][j] - ls[l].w[r][j] < 1.0)
      && (forall l', r' :: 0 <= l' < |ls| && 0 <= r' < ls[l'].rows && (l', r') != (l, r) ==>
            after[l'].w[r'] == ls[l'].w[r'])
  {
  }

  // ---------------------------------------------------------------------------
  // Crossover

  /** The child's layer l: row i from parent 1 when the draw for (l, i) exceeds 0.5,
      otherwise from parent 2. */
  function CrossLayer(a: Layer, b: Layer, l: nat, coin: (nat, nat) -> real): (c: Layer)
    requires SameShape(a, b)
  {
    Matrix(a.rows, a.cols, seq(a.rows, i requires 0 <= i < a.rows =>
      if coin(l, i) > 0.5 then a.w[i] else b.w[i]))
  }

  /** The parents can be crossed: same layer count, same shape layer by layer, and
      no layer without rows (stacking an empty list of rows fails). */
  predicate Crossable(xs: seq<Layer>, ys: seq<Layer>) {
    SameShapes(xs, ys) && forall l :: 0 <= l < |xs| ==> xs[l].rows > 0
  }

  /** The child's layers: each is the parents' layers crossed row by row. */
  function Crossed(xs: seq<Layer>, ys: seq<Layer>, coin: (nat, nat) -> real): (c: seq<Layer>)
    requires Crossable(xs, ys)
    ensures SameShapes(c, xs)
    ensures ValidChain(xs) ==> ValidChain(c)
  {
    var c := seq(|xs|, l requires 0 <= l < |xs| => CrossLayer(xs[l], ys[l], l, coin));
    if ValidChain(xs) then ChainByShape(xs, c); c else c
  }

  /** Crossover's loops: one child layer per pair of parent layers, assembled row by
      row. Every child row is the same-position row of one of the parents. */
  method CrossLayers(xs: seq<Layer>, ys: seq<Layer>, coin: (nat, nat) -> real) returns (r: Result<seq<Layer>>)
    ensures r.Ok? <==> Crossable(xs, ys)
    ensures r.Ok? ==> r.value == Crossed(xs, ys, coin)
    ensures r.Ok? ==> SameShapes(r.value, xs)
    ensures r.Ok? ==> forall l, i :: 0 <= l < |xs| && 0 <= i < xs[l].rows ==>
      r.value[l].w[i] == (if coin(l, i) > 0.5 then xs[l].w[i] else ys[l].w[i])
  {
    if |xs| != |ys| {
      return Err(StructureError);
    }
    var child: seq<Layer> := [];
    var l := 0;
    while l < |xs|
      invariant 0 <= l <= |xs|
      invariant forall l' :: 0 <= l' < l ==> SameShape(xs[l'], ys[l']) && xs[l'].rows > 0
      invariant child == seq(l, l' requires 0 <= l' < l => CrossLayer(xs[l'], ys[l'], l', coin))
    {
      var layer1, layer2 := xs[l], ys[l];
      if !SameShape(layer1, layer2) {
        return Err(StructureError);
      }
      var childLayer: seq<seq<real>> := [];
      var i := 0;
      while i < layer1.rows
        invariant 0 <= i <= layer1.rows
        invariant childLayer == seq(i, i' requires 0 <= i' < i =>
          if coin(l, i') > 0.5 then layer1.w[i'] else layer2.w[i'])
      {
        if coin(l, i) > 0.5 {
          childLayer := childLayer + [layer1.w[i]];
        } else {
          childLayer := childLayer + [layer2.w[i]];
        }
        i := i + 1;
      }
      if |childLayer| == 0 {
        return Err(ValueError);
      }
      assert childLayer == CrossLayer(layer1, layer2, l, coin).w;
      var stacked: Layer := Matrix(layer1.rows, layer1.cols, childLayer);
      child := child + [stacked];
      l := l + 1;
    }
    return Ok(child);
  }

  // ---------------------------------------------------------------------------
  // The network object

  class Net {
    var layers: seq<Layer>

    ghost predicate Valid()
      reads this
    {
      ValidChain(layers)
    }

    /** Stores layers that passed the constructor's check. */
    constructor (ls: seq<Layer>)
      requires ValidChain(ls)
      ensures Valid() && layers == ls
    {
      layers := ls;
    }

    /** `export`: the weights as nested lists. */
    function Export(): (e: seq<seq<seq<real>>>)
      reads this
      ensures |e| == |layers|
      ensures forall l :: 0 <= l < |layers| ==> e[l] == layers[l].w
    {
      ExportLayers(layers)
    }

    /** `feed_forward` up to the softmax: fails when the first layer has no row to
        read its width from (IndexError), and unless the input has one entry fewer
        than the first layer has columns; otherwise it is the layers' forward pass. */
    method FeedForward(x: seq<real>) returns (r: Result<seq<real>>)
      requires Valid()
      ensures r.Ok? <==> layers[0].rows > 0 && |x| + 1 == layers[0].cols
      ensures r.Err? ==> r.error == if layers[0].rows == 0 then IndexError else DimensionError
      ensures r.Ok? ==> Feeds(layers, |x|) && r.value == Forward(layers, x)
    {
      var first := layers[0];
      if first.rows == 0 {
        return Err(IndexError);
      }
      if |x| + 1 != first.cols {
        return Err(DimensionError);
      }
      ChainFeeds(layers);
      var product := x;
      var i := 0;
      while i < |layers|
        invariant 0 <= i <= |layers|
        invariant Feeds(layers[i..], |product|)
        invariant Forward(layers[i..], product) == Forward(layers, x)
      {
        assert layers[i..][1..] == layers[i + 1..];
        product := Relu(MatVec(layers[i], product + [1.0]));
        i := i + 1;
      }
      return Ok(product);
    }

    /** The first loop of `mutate`: the number of nodes over all layers. */
    method TotalNodes() returns (total: nat)
      ensures total == SumRows(layers)
    {
      total := 0;
      var i := 0;
      while i < |layers|
        invariant 0 <= i <= |layers|
        invariant total + SumRows(layers[i..]) == SumRows(layers)
      {
        assert layers[i..][1..] == layers[i + 1..];
        total := total + layers[i].rows;
        i := i + 1;
      }
    }

    /** The inner search of `mutate`: walks the layers, subtracting each layer's row
        count from the global index until it falls inside a layer. */
    method FindNode(index: nat) returns (l: nat, row: nat)
      requires index < SumRows(layers)
      ensures (l, row) == Locate(layers, index)
    {
      var overallIndex: nat := index;
      l := 0;
      assert layers[..0] == [];
      SumRowsSplit(layers, 0);
      while overallIndex >= layers[l].rows
        invariant 0 <= l < |layers|
        invariant index == SumRows(layers[..l]) + overallIndex
        decreases |layers| - l
      {
        SumRowsSplit(layers[..l + 1], l);
        assert layers[..l + 1][..l] == layers[..l];
        assert layers[..l + 1][l..] == [layers[l]];
        overallIndex := overallIndex - layers[l].rows;
        l := l + 1;
        SumRowsSplit(layers, l);
      }
      LocateUnique(layers, l, overallIndex);
      row := overallIndex;
    }

    /** The body of `mutate`'s outer loop: one round, picking a node and adding a
        delta vector to its row in place. */
    method MutateOnce(ghost start: seq<Layer>, totalNodes: nat, times: nat, pick: (nat, nat) -> nat, draw: (nat, nat) -> real)
      requires ValidChain(start) && totalNodes == SumRows(start)
      requires layers == Mutated(start, totalNodes, times, pick, draw)
      modifies this
      ensures layers == Mutated(start, totalNodes, times + 1, pick, draw) && Valid()
    {
      ChainHasNodes(start);
      SumRowsByShape(layers, start);
      var l, row := FindNode(Pick(pick, times, totalNodes));
      MutatedStep(start, totalNodes, times, pick, draw, l, row);
      layers := layers[l := AddToRow(layers[l], row, Delta(draw, times, layers[l].cols))];
    }

    /** `mutate(n)`: n rounds (none when n <= 0), each picking a node uniformly
        among all layers' rows, locating its layer and adding a delta vector to
        that row in place. Returns this same network. */
    method Mutate(n: int, pick: (nat, nat) -> nat, draw: (nat, nat) -> real) returns (self: Net)
      requires Valid()
      modifies this
      ensures self == this && Valid()
      ensures layers == Mutated(old(layers), SumRows(old(layers)), if n > 0 then n else 0, pick, draw)
    {
      ghost var start := layers;
      var totalNodes := TotalNodes();
      ChainHasNodes(start);
      var rounds: nat := if n > 0 then n else 0;
      var times := 0;
      while times < rounds
        invariant times <= rounds
        invariant layers == Mutated(start, totalNodes, times, pick, draw) && Valid()
      {
        MutateOnce(start, totalNodes, times, pick, draw);
        times := times + 1;
      }
      return this;
    }
  }

  /** `cls(*layers)`: the constructor's check, then a new network. */
  method NewNet(ms: seq<Layer>) returns (r: Result<Net>)
    ensures r.Ok? <==> ValidChain(ms)
    ensures r.Ok? ==> fresh(r.value) && r.value.Valid() && r.value.layers == ms
  {
    var checked := BuildLayers(ms);
    if checked.Err? {
      return Err(checked.error);
    }
    var net := new Net(checked.value);
    return Ok(net);
  }

  /** `from_random(*sizes)`: random layers shaped by the node counts, then the
      constructor's check. */
  method FromRandom(sizes: seq<nat>, rand: (nat, nat, nat) -> real) returns (r: Result<Net>)
    requires forall l, i, j :: 0.0 <= rand(l, i, j) < 1.0
    ensures r.Ok? <==> |sizes| >= 3 && forall i :: 2 <= i < |sizes| ==> sizes[i] > 0
    ensures r.Ok? ==> fresh(r.value) && r.value.Valid() && |r.value.layers| == |sizes| - 1
    ensures r.Ok? ==> forall l :: 0 <= l < |r.value.layers| ==>
      r.value.layers[l] == RandomMatrix(sizes[l + 1], sizes[l], l, rand)
  {
    var layers := RandomLayers(sizes, rand);
    if layers.Err? {
      return Err(layers.error);
    }
    RandomShapesChain(sizes, layers.value);
    r := NewNet(layers.value);
  }

  /** `copy`: a new network with equal weights in separate storage. */
  method Copy(network: Net) returns (c: Net)
    requires network.Valid()
    ensures fresh(c) && c.Valid() && c.layers == network.layers
  {
    c := new Net(network.layers);
  }

  /** `from_export`: a new network from exported weights. */
  method FromExport(e: seq<seq<seq<real>>>) returns (r: Result<Net>)
    ensures r.Ok? <==> ImportLayers(e).Ok?
    ensures r.Ok? ==> fresh(r.value) && r.value.Valid() && r.value.layers == ImportLayers(e).value
  {
    var imported := ImportLayers(e);
    if imported.Err? {
      return Err(imported.error);
    }
    var net := new Net(imported.value);
    return Ok(net);
  }

  /** `crossover(parent1, parent2)`: a new network whose rows come from the parents. */
  method Crossover(parent1: Net, parent2: Net, coin: (nat, nat) -> real) returns (r: Result<Net>)
    requires parent1.Valid() && parent2.Valid()
    ensures r.Ok? <==> Crossable(parent1.layers, parent2.layers)
    ensures r.Ok? ==> fresh(r.value) && r.value.Valid() && r.value.layers == Crossed(parent1.layers, parent2.layers, coin)
    ensures r.Ok? ==> forall l, i :: 0 <= l < |parent1.layers| && 0 <= i < parent1.layers[l].rows ==>
      r.value.layers[l].w[i] == (if coin(l, i) > 0.5 then parent1.layers[l].w[i] else parent2.layers[l].w[i])
  {
    var child := CrossLayers(parent1.layers, parent2.layers, coin);
    if child.Err? {
      return Err(child.error);
    }
    ChainByShape(parent1.layers, child.value);
    r := NewNet(child.value);
  }
}
