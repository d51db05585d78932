/** `src/structures.py`: the Python prototype's people, with their defaulted
    constructor arguments and class-wide id counter, and the friendship graph,
    a symmetric 0/1 matrix of friendships between people. */
module Structures {
  import opened Wrappers
  import Vectors

  const MAX_RANDOM_SPEED: real := 0.003
  const MIN_RANDOM_SPEED: real := 0.0003

  /** Python truthiness of an optional number: `None` and `0` are false. */
  predicate Truthy(v: Option<real>) {
    v.Some? && v.value != 0.0
  }

  /** `v if v else draw`: the argument when it is truthy, otherwise a random draw. */
  function OrIfFalsy(v: Option<real>, draw: real): real
  {
    if Truthy(v) then v.value else draw
  }

  /** `v if v is not None else draw`: only `None` is replaced. */
  function OrIfNone(v: Option<real>, draw: real): real
  {
    if v.Some? then v.value else draw
  }

  /** The two defaulting rules differ on an explicit zero: `x`, `y` and
      `speed` replace it by a draw, `sfc`, `wpc` and `irc` keep it. */
  lemma ZeroArgumentQuirk(draw: real)
    ensures OrIfFalsy(Some(0.0), draw) == draw
    ensures OrIfNone(Some(0.0), draw) == 0.0
    ensures OrIfFalsy(None, draw) == OrIfNone(None, draw) == draw
  {
  }

  /** The default speed from a draw `u` of `random.random()`. */
  function DefaultSpeed(u: real): (r: real)
    requires 0.0 <= u < 1.0
    ensures MIN_RANDOM_SPEED <= r < MAX_RANDOM_SPEED
  {
    u * (MAX_RANDOM_SPEED - MIN_RANDOM_SPEED) + MIN_RANDOM_SPEED
  }

  /** The draws a construction may consume: `random.random()` for the numbers
      and `random.randint(20, 255)` for the colour channels. */
  datatype Draws = Draws(x: real, y: real, speed: real, sfc: real, wpc: real, irc: real,
                         red: int, green: int, blue: int)

  predicate InHalfOpenUnit(v: real) { 0.0 <= v < 1.0 }

  predicate ValidDraws(d: Draws) {
    InHalfOpenUnit(d.x) && InHalfOpenUnit(d.y) && InHalfOpenUnit(d.speed)
    && InHalfOpenUnit(d.sfc) && InHalfOpenUnit(d.wpc) && InHalfOpenUnit(d.irc)
    && 20 <= d.red <= 255 && 20 <= d.green <= 255 && 20 <= d.blue <= 255
  }

  /** `color if color else (random colour)`: `None` and the empty tuple are falsy. */
  function ColorOrDraw(color: Option<seq<int>>, d: Draws): seq<int>
  {
    if color.Some? && color.value != [] then color.value else [d.red, d.green, d.blue]
  }

  /** `max(0, min(1, v))`, the clamp `random_move` applies. */
  function ClampUnit(v: real): (r: real)
    ensures r == Vectors.Clamp01(v)
  {
    Vectors.Max(0.0, Vectors.Min(1.0, v))
  }

  /** The class attribute `Person.id_counter`, shared by all constructions. */
  class IdCounter {
    var value: int

    constructor ()
      ensures value == 0
    {
      value := 0;
    }
  }

  class Person {
    var x: real
    var y: real
    var speed: real
    var sfc: real
    var wpc: real
    var irc: real
    var color: seq<int>
    var id: int
    var wellbeing: real

    /** `Person.__init__`: defaults the arguments, then takes the next id. */
    constructor (counter: IdCounter, x: Option<real>, y: Option<real>, speed: Option<real>,
                 sfc: Option<real>, wpc: Option<real>, irc: Option<real>, color: Option<seq<int>>,
                 draws: Draws)
      requires ValidDraws(draws)
      modifies counter
      ensures this.x == OrIfFalsy(x, draws.x) && this.y == OrIfFalsy(y, draws.y)
      ensures this.speed == OrIfFalsy(speed, DefaultSpeed(draws.speed))
      ensures !Truthy(speed) ==> MIN_RANDOM_SPEED <= this.speed < MAX_RANDOM_SPEED
      ensures this.sfc == OrIfNone(sfc, draws.sfc) && this.wpc == OrIfNone(wpc, draws.wpc)
      ensures this.irc == OrIfNone(irc, draws.irc)
      ensures this.color == ColorOrDraw(color, draws)
      ensures counter.value == old(counter.value) + 1 && id == counter.value
      ensures wellbeing == 0.0
    {
      this.x := OrIfFalsy(x, draws.x);
      this.y := OrIfFalsy(y, draws.y);
      this.speed := OrIfFalsy(speed, DefaultSpeed(draws.speed));
      this.sfc := OrIfNone(sfc, draws.sfc);
      this.wpc := OrIfNone(wpc, draws.wpc);
      this.irc := OrIfNone(irc, draws.irc);
      this.color := ColorOrDraw(color, draws);
      new;
      counter.value := counter.value + 1;
      id := counter.value;
      wellbeing := 0.0;
    }

    /** `move`: an unclamped step. */
    method Move(dx: real, dy: real)
      modifies this
      ensures x == old(x) + dx && y == old(y) + dy
      ensures speed == old(speed) && id == old(id)
      ensures sfc == old(sfc) && wpc == old(wpc) && irc == old(irc)
      ensures color == old(color) && wellbeing == old(wellbeing)
    {
      x := x + dx;
      y := y + dy;
    }

    /** `random_move`: a step of `speed` along the two simplex-noise samples
        `dx`, `dy`, clamped into [0,1] per axis. */
    method RandomMove(dx: real, dy: real)
      modifies this
      ensures x == ClampUnit(old(x) + dx * speed) && y == ClampUnit(old(y) + dy * speed)
      ensures 0.0 <= x <= 1.0 && 0.0 <= y <= 1.0
      ensures speed == old(speed) && id == old(id)
      ensures sfc == old(sfc) && wpc == old(wpc) && irc == old(irc)
      ensures color == old(color) && wellbeing == old(wellbeing)
    {
      x := Vectors.Max(0.0, Vectors.Min(1.0, x + dx * speed));
      y := Vectors.Max(0.0, Vectors.Min(1.0, y + dy * speed));
    }
  }

  /** `[Person() for _ in range(n)]` with every argument defaulted: the ids
      are consecutive from the counter's next value, hence strictly increasing
      and distinct. */
  method MakePeople(counter: IdCounter, draws: seq<Draws>) returns (people: seq<Person>)
    requires forall k :: 0 <= k < |draws| ==> ValidDraws(draws[k])
    modifies counter
    ensures |people| == |draws|
    ensures counter.value == old(counter.value) + |draws|
    ensures forall k :: 0 <= k < |people| ==> people[k].id == old(counter.value) + k + 1
    ensures forall j, k :: 0 <= j < k < |people| ==> people[j].id < people[k].id
  {
    people := [];
    var i := 0;
    while i < |draws|
      invariant 0 <= i <= |draws| && |people| == i
      invariant counter.value == old(counter.value) + i
      invariant forall k :: 0 <= k < i ==> people[k].id == old(counter.value) + k + 1
    {
      var p := new Person(counter, None, None, None, None, None, None, None, draws[i]);
      people := people + [p];
      i := i + 1;
    }
  }

  /** A friendship matrix as a value: row `i`, column `j`. */
  type Matrix = seq<seq<real>>

  predicate IsSquare(m: Matrix, n: nat) {
    |m| == n && forall i :: 0 <= i < n ==> |m[i]| == n
  }

  predicate Symmetric(m: Matrix)
    requires IsSquare(m, |m|)
  {
    forall i, j :: 0 <= i < |m| && 0 <= j < |m| ==> m[i][j] == m[j][i]
  }

  /** Every cell is 0 or 1. */
  predicate ZeroOne(m: Matrix)
    requires IsSquare(m, |m|)
  {
    forall i, j :: 0 <= i < |m| && 0 <= j < |m| ==> m[i][j] == 0.0 || m[i][j] == 1.0
  }

  function ZeroMatrix(n: nat): (m: Matrix)
    ensures IsSquare(m, n)
  {
    seq(n, i => seq(n, j => 0.0))
  }

  function SetCell(m: Matrix, i: int, j: int, v: real): (r: Matrix)
    requires IsSquare(m, |m|) && 0 <= i < |m| && 0 <= j < |m|
    ensures IsSquare(r, |m|)
  {
    m[i := m[i][j := v]]
  }

  /** `graph[i, j] = v` followed by `graph[j, i] = v`. */
  function SetPair(m: Matrix, i: int, j: int, v: real): (r: Matrix)
    requires IsSquare(m, |m|) && 0 <= i < |m| && 0 <= j < |m|
    ensures IsSquare(r, |m|)
  {
    SetCell(SetCell(m, i, j, v), j, i, v)
  }

  /** Setting a pair writes exactly the cells (i,j) and (j,i) and no other. */
  lemma SetPairCells(m: Matrix, i: int, j: int, v: real)
    requires IsSquare(m, |m|) && 0 <= i < |m| && 0 <= j < |m|
    ensures forall a, b :: 0 <= a < |m| && 0 <= b < |m| ==>
              SetPair(m, i, j, v)[a][b] == if (a == i && b == j) || (a == j && b == i) then v else m[a][b]
  {
  }

  lemma SetPairPreservesSymmetry(m: Matrix, i: int, j: int, v: real)
    requires IsSquare(m, |m|) && 0 <= i < |m| && 0 <= j < |m|
    requires Symmetric(m)
    ensures Symmetric(SetPair(m, i, j, v))
  {
    SetPairCells(m, i, j, v);
  }

  /** Writing a 0 or a 1 to a pair keeps a 0/1 matrix 0/1. */
  lemma SetPairPreservesZeroOne(m: Matrix, i: int, j: int, v: real)
    requires IsSquare(m, |m|) && 0 <= i < |m| && 0 <= j < |m|
    requires ZeroOne(m) && (v == 0.0 || v == 1.0)
    ensures ZeroOne(SetPair(m, i, j, v))
  {
    SetPairCells(m, i, j, v);
  }

  /** A new graph has no friendships: symmetric, 0/1, with a zero diagonal. */
  lemma ZeroMatrixHasNoFriendships(n: nat)
    ensures Symmetric(ZeroMatrix(n)) && ZeroOne(ZeroMatrix(n))
    ensures forall a, b :: 0 <= a < n && 0 <= b < n ==> ZeroMatrix(n)[a][b] == 0.0
  {
  }

  /** Two square matrices with the same cells are equal. */
  lemma MatrixExtensionality(m: Matrix, m': Matrix)
    requires IsSquare(m, |m|) && IsSquare(m', |m|)
    requires forall a, b :: 0 <= a < |m| && 0 <= b < |m| ==> m[a][b] == m'[a][b]
    ensures m == m'
  {
    forall a | 0 <= a < |m|
      ensures m[a] == m'[a]
    {
    }
  }

  /** Adding (or removing) a friendship twice is the same as doing it once,
      and removing after adding leaves the pair as removing alone does. */
  lemma SetPairOverwrites(m: Matrix, i: int, j: int, v: real, w: real)
    requires IsSquare(m, |m|) && 0 <= i < |m| && 0 <= j < |m|
    ensures SetPair(SetPair(m, i, j, v), i, j, w) == SetPair(m, i, j, w)
  {
    var n := |m|;
    SetPairCells(m, i, j, v);
    SetPairCells(SetPair(m, i, j, v), i, j, w);
    SetPairCells(m, i, j, w);
    MatrixExtensionality(SetPair(SetPair(m, i, j, v), i, j, w), SetPair(m, i, j, w));
  }

  /** Whether the sweep reaching loop position (i, j) has already visited the
      pair (a, b) with `b < a` and drawn a success for it. */
  predicate Hit(a: int, b: int, i: int, j: int, accept: (int, int) -> bool) {
    0 <= b < a && (a < i || (a == i && b < j)) && accept(a, b)
  }

  /** The matrix after a sweep over the pairs `j < i < count` that writes `v`
      to both cells of every pair whose draw succeeded. */
  function Sweep(m: Matrix, count: nat, accept: (int, int) -> bool, v: real): (r: Matrix)
    requires IsSquare(m, |m|)
    ensures IsSquare(r, |m|)
  {
    seq(|m|, a requires 0 <= a < |m| =>
      seq(|m|, b requires 0 <= b < |m| =>
        if Hit(a, b, count, 0, accept) || Hit(b, a, count, 0, accept) then v else m[a][b]))
  }

  /** What every sweep guarantees: it keeps a symmetric matrix symmetric, never
      touches the diagonal, and touches no row or column at or past `count`. */
  lemma SweepPreservesSymmetryAndDiagonal(m: Matrix, count: nat, accept: (int, int) -> bool, v: real)
    requires IsSquare(m, |m|) && Symmetric(m)
    ensures Symmetric(Sweep(m, count, accept, v))
    ensures forall a :: 0 <= a < |m| ==> Sweep(m, count, accept, v)[a][a] == m[a][a]
    ensures forall a, b :: 0 <= a < |m| && 0 <= b < |m| && (count <= a || count <= b) ==>
              Sweep(m, count, accept, v)[a][b] == m[a][b]
  {
  }

  /** `add_random_friendships` never clears a friendship and
      `remove_random_friendships` never creates one; both keep a 0/1 matrix 0/1. */
  lemma SweepsAreMonotone(m: Matrix, count: nat, accept: (int, int) -> bool)
    requires IsSquare(m, |m|) && ZeroOne(m)
    ensures ZeroOne(Sweep(m, count, accept, 1.0)) && ZeroOne(Sweep(m, count, accept, 0.0))
    ensures forall a, b :: 0 <= a < |m| && 0 <= b < |m| && m[a][b] == 1.0 ==> Sweep(m, count, accept, 1.0)[a][b] == 1.0
    ensures forall a, b :: 0 <= a < |m| && 0 <= b < |m| && m[a][b] == 0.0 ==> Sweep(m, count, accept, 0.0)[a][b] == 0.0
  {
  }

  /** The friends of a row from index `k` on: the indices holding exactly 1,
      in ascending order. */
  function FriendsFrom(row: seq<real>, k: nat): (r: seq<int>)
    requires k <= |row|
    ensures forall x :: x in r <==> k <= x < |row| && row[x] == 1.0
    ensures forall p, q :: 0 <= p < q < |r| ==> r[p] < r[q]
    decreases |row| - k
  {
    if k == |row| then []
    else if row[k] == 1.0 then
      var rest := FriendsFrom(row, k + 1);
      forall q | 0 <= q < |rest|
        ensures rest[q] > k
      {
        assert rest[q] in rest;
      }
      [k] + rest
    else FriendsFrom(row, k + 1)
  }

  class FriendshipGraph {
    const graph: array2<real>
    var establishmentEquProbDist: real
    var breakEquProbDist: real

    ghost predicate Valid()
      reads this
    {
      graph.Length0 == graph.Length1
    }

    /** The shape every friendship update keeps: symmetric, with 0/1 cells. */
    ghost predicate Consistent()
      reads this, graph
      requires Valid()
    {
      Symmetric(Cells()) && ZeroOne(Cells())
    }

    /** Friendship is mutual: `k` is a friend of `p` exactly when `p` is a friend of `k`. */
    lemma FriendsAreMutual(p: int, k: int)
      requires Valid() && Consistent() && 0 <= p < graph.Length0 && 0 <= k < graph.Length0
      ensures k in GetFriends(p) <==> p in GetFriends(k)
    {
      assert Cells()[p][k] == graph[p, k] && Cells()[k][p] == graph[k, p];
    }

    /** The matrix the array holds. */
    ghost function Cells(): (m: Matrix)
      reads this, graph
      requires Valid()
      ensures IsSquare(m, graph.Length0)
    {
      seq(graph.Length0, i requires 0 <= i < graph.Length0 reads graph =>
        seq(graph.Length1, j requires 0 <= j < graph.Length1 reads graph => graph[i, j]))
    }

    /** `np.zeros((num_people, num_people))`; the two distance parameters are
        only stored. */
    constructor (numPeople: nat, establishmentEquProbDist: real, breakEquProbDist: real)
      ensures Valid() && fresh(graph) && graph.Length0 == numPeople
      ensures Cells() == ZeroMatrix(numPeople) && Consistent()
      ensures this.establishmentEquProbDist == establishmentEquProbDist
      ensures this.breakEquProbDist == breakEquProbDist
    {
      graph := new real[numPeople, numPeople]((i, j) => 0.0);
      this.establishmentEquProbDist := establishmentEquProbDist;
      this.breakEquProbDist := breakEquProbDist;
      new;
      MatrixExtensionality(Cells(), ZeroMatrix(numPeople));
      ZeroMatrixHasNoFriendships(numPeople);
    }

    method AddFriendship(person1: int, person2: int)
      requires Valid() && 0 <= person1 < graph.Length0 && 0 <= person2 < graph.Length0
      modifies graph
      ensures Cells() == SetPair(old(Cells()), person1, person2, 1.0)
      ensures old(Consistent()) ==> Consistent()
    {
      SetPairOf(person1, person2, 1.0);
    }

    method RemoveFriendship(person1: int, person2: int)
      requires Valid() && 0 <= person1 < graph.Length0 && 0 <= person2 < graph.Length0
      modifies graph
      ensures Cells() == SetPair(old(Cells()), person1, person2, 0.0)
      ensures old(Consistent()) ==> Consistent()
    {
      SetPairOf(person1, person2, 0.0);
    }

    /** The two cell writes both friendship updates perform. */
    method SetPairOf(person1: int, person2: int, v: real)
      requires Valid() && 0 <= person1 < graph.Length0 && 0 <= person2 < graph.Length0
      modifies graph
      ensures Cells() == SetPair(old(Cells()), person1, person2, v)
    {
      ghost var m0 := Cells();
      graph[person1, person2] := v;
      graph[person2, person1] := v;
      SetPairCells(m0, person1, person2, v);
      MatrixExtensionality(Cells(), SetPair(m0, person1, person2, v));
      if Symmetric(m0) && ZeroOne(m0) && (v == 0.0 || v == 1.0) {
        SetPairPreservesSymmetry(m0, person1, person2, v);
        SetPairPreservesZeroOne(m0, person1, person2, v);
      }
    }

    /** `get_friends`: the indices `k` with `graph[person][k] == 1`, ascending. */
    function GetFriends(person: int): (r: seq<int>)
      reads this, graph
      requires Valid() && 0 <= person < graph.Length0
      ensures forall k :: k in r <==> 0 <= k < graph.Length1 && graph[person, k] == 1.0
      ensures forall p, q :: 0 <= p < q < |r| ==> r[p] < r[q]
    {
      FriendsFrom(seq(graph.Length1, k requires 0 <= k < graph.Length1 reads graph => graph[person, k]), 0)
    }

    /** `add_random_friendships` over the first `numPeople` people; `accept(i, j)`
        is the outcome of `random.random() < p` for the pair. */
    method AddRandomFriendships(numPeople: nat, accept: (int, int) -> bool)
      requires Valid() && numPeople <= graph.Length0
      modifies graph
      ensures Cells() == Sweep(old(Cells()), numPeople, accept, 1.0)
      ensures old(Consistent()) ==> Consistent()
    {
      ghost var m0 := Cells();
      SweepPairs(numPeople, accept, 1.0);
      if IsSquare(m0, |m0|) && Symmetric(m0) && ZeroOne(m0) {
        SweepPreservesSymmetryAndDiagonal(m0, numPeople, accept, 1.0);
        SweepsAreMonotone(m0, numPeople, accept);
      }
    }

    /** `remove_random_friendships`, with the same pair order and oracle. */
    method RemoveRandomFriendships(numPeople: nat, accept: (int, int) -> bool)
      requires Valid() && numPeople <= graph.Length0
      modifies graph
      ensures Cells() == Sweep(old(Cells()), numPeople, accept, 0.0)
      ensures old(Consistent()) ==> Consistent()
    {
      ghost var m0 := Cells();
      SweepPairs(numPeople, accept, 0.0);
      if IsSquare(m0, |m0|) && Symmetric(m0) && ZeroOne(m0) {
        SweepPreservesSymmetryAndDiagonal(m0, numPeople, accept, 0.0);
        SweepsAreMonotone(m0, numPeople, accept);
      }
    }

    /** The loop both random sweeps share: `for i in range(n): for j in range(i)`,
        writing `v` to the pair when its draw succeeds. */
    method SweepPairs(numPeople: nat, accept: (int, int) -> bool, v: real)
      requires Valid() && numPeople <= graph.Length0
      modifies graph
      ensures Cells() == Sweep(old(Cells()), numPeople, accept, v)
    {
      ghost var m0 := Cells();
      var n := graph.Length0;
      for i := 0 to numPeople
        invariant forall a, b :: 0 <= a < n && 0 <= b < n ==>
                    graph[a, b] == if Hit(a, b, i, 0, accept) || Hit(b, a, i, 0, accept) then v else m0[a][b]
      {
        for j := 0 to i
          invariant forall a, b :: 0 <= a < n && 0 <= b < n ==>
                      graph[a, b] == if Hit(a, b, i, j, accept) || Hit(b, a, i, j, accept) then v else m0[a][b]
        {
          if accept(i, j) {
            graph[i, j] := v;
            graph[j, i] := v;
          }
        }
      }
      MatrixExtensionality(Cells(), Sweep(m0, numPeople, accept, v));
    }
  }
}
