/**
  The rules of the snake room (examples/snake_battle/game/game.go) on values: one tick for
  any order in which the players are visited and any random draws for new food.
  */
module Snakes {

  const GRID_WIDTH: int := 40
  const GRID_HEIGHT: int := 30
  const SPAWN_TRIES: nat := 100

  datatype Direction = Up | Down | Left | Right

  datatype Point = Point(x: int, y: int)

  datatype Snake = Snake(body: seq<Point>, direction: Direction, growing: bool, alive: bool, score: int)

  datatype Phase = Waiting | Playing | Done

  type Players = map<string, Snake>

  /** What a tick needs to know that the code leaves to the runtime. */
  datatype Chance = Chance(order: seq<string>, draws: string -> seq<Point>)

  function Step(p: Point, d: Direction): Point {
    match d
    case Up => Point(p.x, p.y - 1)
    case Down => Point(p.x, p.y + 1)
    case Left => Point(p.x - 1, p.y)
    case Right => Point(p.x + 1, p.y)
  }

  function Opposite(d: Direction): Direction {
    match d
    case Up => Down
    case Down => Up
    case Left => Right
    case Right => Left
  }

  predicate InGrid(p: Point) { 0 <= p.x < GRID_WIDTH && 0 <= p.y < GRID_HEIGHT }

  /** Cell i of a new snake: i steps behind its head. */
  function Behind(x: int, y: int, d: Direction, i: nat): Point
    decreases i
  {
    if i == 0 then Point(x, y) else Step(Behind(x, y, d, i - 1), Opposite(d))
  }

  function NewSnake(x: int, y: int, d: Direction): Snake {
    Snake([Behind(x, y, d, 0), Behind(x, y, d, 1), Behind(x, y, d, 2)], d, false, true, 0)
  }

  function Moved(s: Snake): Snake
    requires s.alive ==> s.body != []
  {
    if !s.alive then s
    else
      var b := [Step(s.body[0], s.direction)] + s.body;
      s.(body := if s.growing then b else b[..|b| - 1], growing := false)
  }

  function Turned(s: Snake, d: Direction): Snake {
    if d == Opposite(s.direction) then s else s.(direction := d)
  }

  function Grown(s: Snake): Snake { s.(growing := true, score := s.score + 10) }

  predicate HitsWall(s: Snake)
    requires s.body != []
  {
    !InGrid(s.body[0])
  }

  predicate HitsSelf(s: Snake)
    requires s.body != []
  {
    s.body[0] in s.body[1..]
  }

  predicate HitsOther(players: Players, id: string)
    requires id in players && players[id].body != []
  {
    exists other :: other in players && other != id && players[other].alive
                    && players[id].body[0] in players[other].body
  }

  predicate Occupied(players: Players, p: Point) {
    exists id :: id in players && p in players[id].body
  }

  /** spawnFood with the given random draws. */
  function Spawned(players: Players, foods: seq<Point>, draws: seq<Point>): seq<Point> {
    if draws == [] then foods
    else if Occupied(players, draws[0]) || draws[0] in foods then Spawned(players, foods, draws[1..])
    else foods + [draws[0]]
  }

  /** The foods without the first one at p. */
  function Eaten(foods: seq<Point>, p: Point): seq<Point> {
    if foods == [] then []
    else if foods[0] == p then foods[1..]
    else [foods[0]] + Eaten(foods[1..], p)
  }

  predicate Bodies(players: Players) { forall id :: id in players ==> players[id].body != [] }

  datatype Table = Table(players: Players, foods: seq<Point>)

  predicate Dies(players: Players, id: string)
    requires id in players && players[id].body != []
  {
    HitsWall(players[id]) || HitsSelf(players[id]) || HitsOther(players, id)
  }

  /** The collision and food part of one tick for one player. */
  function Judge(t: Table, id: string, draws: seq<Point>): (t': Table)
    requires id in t.players && Bodies(t.players)
    ensures t'.players.Keys == t.players.Keys && Bodies(t'.players)
  {
    var s := t.players[id];
    if !s.alive then t
    else if Dies(t.players, id) then t.(players := t.players[id := s.(alive := false)])
    else if s.body[0] in t.foods then
      var players := t.players[id := Grown(s)];
      Table(players, Spawned(players, Eaten(t.foods, s.body[0]), draws))
    else t
  }

  function JudgeAll(t: Table, order: seq<string>, draws: string -> seq<Point>): (t': Table)
    requires Bodies(t.players) && forall id :: id in order ==> id in t.players
    ensures t'.players.Keys == t.players.Keys && Bodies(t'.players)
    decreases |order|
  {
    if order == [] then t
    else
      var n := |order| - 1;
      var before := JudgeAll(t, order[..n], draws);
      Judge(before, order[n], draws(order[n]))
  }

  function MoveAll(players: Players): (r: Players)
    requires Bodies(players)
    ensures r.Keys == players.Keys && Bodies(r)
  {
    map id | id in players :: Moved(players[id])
  }

  function Alive(players: Players): set<string> { set id | id in players && players[id].alive }

  /** An iteration order of the players map: each player once. */
  ghost predicate Visits(order: seq<string>, ids: set<string>) {
    && (forall id :: id in order <==> id in ids)
    && NoRepeats(order)
  }

  /** One tick of a playing room. */
  function Ticked(t: Table, chance: Chance): Table
    requires Bodies(t.players) && Visits(chance.order, t.players.Keys)
  {
    JudgeAll(Table(MoveAll(t.players), t.foods), chance.order, chance.draws)
  }

  /** AddPlayer: the first one on the left, the second on the right, a third is refused. */
  function Joined(players: Players, id: string): Players {
    if |players| >= 2 then players
    else if |players| == 0 then players[id := NewSnake(5, GRID_HEIGHT / 2, Right)]
    else players[id := NewSnake(GRID_WIDTH - 6, GRID_HEIGHT / 2, Left)]
  }

  // ------------------------------------------------------------------------------
  // The invariant
  // ------------------------------------------------------------------------------

  predicate Adjacent(p: Point, q: Point) { exists d :: q == Step(p, d) }

  /** Cell i of the body touches the one before it. */
  predicate Linked(body: seq<Point>, i: nat)
    requires 0 < i < |body|
  {
    Adjacent(body[i], body[i - 1])
  }

  predicate Chain(body: seq<Point>) { forall i :: 0 < i < |body| ==> Linked(body, i) }

  predicate AllInGrid(ps: seq<Point>) { forall i :: 0 <= i < |ps| ==> InGrid(ps[i]) }

  predicate Distinct(ps: seq<Point>) { forall i, j :: 0 <= i < j < |ps| ==> ps[i] != ps[j] }

  predicate Disjoint(ps: seq<Point>, qs: seq<Point>) { forall p :: p in ps ==> p !in qs }

  /** In the grid, self-avoiding, each cell next to the previous one. */
  predicate WellPlaced(s: Snake) { AllInGrid(s.body) && Distinct(s.body) && Chain(s.body) }

  /** Length and score tell the same story. */
  predicate Sized(s: Snake) {
    && 0 <= s.score && s.score % 10 == 0
    && |s.body| + (if s.growing then 1 else 0) == 3 + s.score / 10
  }

  predicate FoodsOk(foods: seq<Point>) { |foods| <= 3 && AllInGrid(foods) && Distinct(foods) }

  predicate Apart(s: Snake, other: Snake) {
    s.alive && other.alive ==> Disjoint(s.body, other.body)
  }

  predicate Sound(s: Snake, foods: seq<Point>) {
    Sized(s) && (s.alive ==> WellPlaced(s) && Disjoint(s.body, foods))
  }

  /** The geometric invariant of a running game. */
  predicate Good(t: Table) {
    && (forall id :: id in t.players ==> Sound(t.players[id], t.foods))
    && (forall id, other :: id in t.players && other in t.players && id != other ==>
          Apart(t.players[id], t.players[other]))
    && FoodsOk(t.foods)
  }

  /** The attempts of one spawnFood: rand.Intn stays inside the grid. */
  predicate Attempts(draws: seq<Point>) { |draws| == SPAWN_TRIES && AllInGrid(draws) }

  ghost predicate Fair(draws: string -> seq<Point>) {
    forall id :: Attempts(draws(id))
  }

  // ------------------------------------------------------------------------------
  // Inside a tick
  // ------------------------------------------------------------------------------

  /** After the moves only heads can be misplaced. */
  predicate TailOk(s: Snake, foods: seq<Point>) {
    && s.body != [] && Sized(s)
    && (s.alive ==> Chain(s.body) && AllInGrid(s.body[1..]) && Distinct(s.body[1..]) && Disjoint(s.body[1..], foods))
  }

  /** A judged survivor's head is fine as well; whoever is not judged yet is not growing. */
  predicate HeadOk(s: Snake, judged: bool, foods: seq<Point>)
    requires s.body != []
  {
    if judged then s.alive ==> InGrid(s.body[0]) && s.body[0] !in s.body[1..] && s.body[0] !in foods
    else s.alive ==> !s.growing
  }

  /** Two living snakes: tails apart, and a judged one's head off the other altogether. */
  predicate PairOk(s: Snake, judged: bool, other: Snake)
    requires s.body != [] && other.body != []
  {
    s.alive && other.alive ==>
      && Disjoint(s.body[1..], other.body[1..])
      && (judged ==> s.body[0] !in other.body)
  }

  predicate Mid(t: Table, judged: set<string>) {
    && (forall id :: id in t.players ==> TailOk(t.players[id], t.foods))
    && (forall id :: id in t.players ==> HeadOk(t.players[id], id in judged, t.foods))
    && (forall id, other :: id in t.players && other in t.players && id != other ==>
          PairOk(t.players[id], id in judged, t.players[other]))
    && FoodsOk(t.foods)
  }

  lemma MovedTail(s: Snake, foods: seq<Point>)
    requires Sound(s, foods)
    ensures TailOk(Moved(s), foods) && HeadOk(Moved(s), false, foods)
  {
    if s.alive {
      var m := Moved(s);
      var n := |m.body|;
      MovedRest(s);
      assert Step(s.body[0], s.direction) == m.body[0];
      forall i | 0 < i < n
        ensures Linked(m.body, i)
      {
        if i == 1 {
          assert m.body[0] == Step(m.body[1], s.direction);
        } else {
          assert Linked(s.body, i - 1);
          assert m.body[i] == s.body[i - 1] && m.body[i - 1] == s.body[i - 2];
        }
      }
    }
  }

  lemma MovedRest(s: Snake)
    requires s.alive && s.body != []
    ensures Moved(s).body != [] && Moved(s).body[1..] == s.body[..|Moved(s).body| - 1]
    ensures forall p :: p in Moved(s).body[1..] ==> p in s.body
  {
    assert ([Step(s.body[0], s.direction)] + s.body)[1..] == s.body;
  }

  lemma MovedPair(s: Snake, other: Snake, foods: seq<Point>)
    requires Sound(s, foods) && Sound(other, foods) && Apart(s, other)
    ensures PairOk(Moved(s), false, Moved(other))
  {
    if s.alive && other.alive {
      MovedRest(s);
      MovedRest(other);
    }
  }

  lemma MoveAllMid(t: Table)
    requires Good(t)
    ensures Bodies(t.players) && Mid(Table(MoveAll(t.players), t.foods), {})
  {
    forall id | id in t.players
      ensures TailOk(Moved(t.players[id]), t.foods) && HeadOk(Moved(t.players[id]), false, t.foods)
    {
      MovedTail(t.players[id], t.foods);
    }
    forall id, other | id in t.players && other in t.players && id != other
      ensures PairOk(Moved(t.players[id]), false, Moved(t.players[other]))
    {
      MovedPair(t.players[id], t.players[other], t.foods);
    }
  }

  lemma {:induction false} EatenOk(foods: seq<Point>, p: Point)
    requires FoodsOk(foods) && p in foods
    ensures FoodsOk(Eaten(foods, p)) && |Eaten(foods, p)| == |foods| - 1
    ensures forall q :: q in Eaten(foods, p) <==> q in foods && q != p
    decreases |foods|
  {
    if foods[0] != p {
      EatenOk(foods[1..], p);
      assert foods == [foods[0]] + foods[1..];
    } else {
      assert foods == [p] + foods[1..];
    }
  }

  lemma {:induction false} SpawnedOk(players: Players, foods: seq<Point>, draws: seq<Point>)
    requires AllInGrid(draws)
    ensures var foods' := Spawned(players, foods, draws);
      foods' == foods
      || exists p :: foods' == foods + [p] && InGrid(p) && !Occupied(players, p) && p !in foods
    decreases |draws|
  {
    if draws != [] {
      assert InGrid(draws[0]);
      SpawnedOk(players, foods, draws[1..]);
    }
  }

  /** Feeding: what is left on the table stays legal and off every body it was off before. */
  lemma FedOk(players: Players, foods: seq<Point>, p: Point, draws: seq<Point>)
    requires FoodsOk(foods) && p in foods && AllInGrid(draws)
    ensures var foods' := Spawned(players, Eaten(foods, p), draws);
      && FoodsOk(foods')
      && forall q :: q in foods' ==> (q in foods && q != p) || !Occupied(players, q)
  {
    EatenOk(foods, p);
    SpawnedOk(players, Eaten(foods, p), draws);
  }

  lemma JudgeMid(t: Table, judged: set<string>, id: string, draws: seq<Point>)
    requires Mid(t, judged) && id in t.players && id !in judged && AllInGrid(draws)
    ensures Bodies(t.players) && Mid(Judge(t, id, draws), judged + {id})
  {
    var s := t.players[id];
    var t' := Judge(t, id, draws);
    assert TailOk(s, t.foods) && HeadOk(s, false, t.foods);
    if s.alive && !Dies(t.players, id) && s.body[0] in t.foods {
      FedMid(t, judged, id, draws);
    } else {
      forall a | a in t'.players
        ensures TailOk(t'.players[a], t'.foods) && HeadOk(t'.players[a], a in judged + {id}, t'.foods)
      {
        assert TailOk(t.players[a], t.foods) && HeadOk(t.players[a], a in judged, t.foods);
      }
      forall a, b | a in t'.players && b in t'.players && a != b
        ensures PairOk(t'.players[a], a in judged + {id}, t'.players[b])
      {
        assert PairOk(t.players[a], a in judged, t.players[b]);
      }
    }
  }

  lemma FedMid(t: Table, judged: set<string>, id: string, draws: seq<Point>)
    requires Mid(t, judged) && id in t.players && id !in judged && AllInGrid(draws) && Bodies(t.players)
    requires t.players[id].alive && !Dies(t.players, id) && t.players[id].body[0] in t.foods
    ensures Mid(Judge(t, id, draws), judged + {id})
  {
    var s := t.players[id];
    var t' := Judge(t, id, draws);
    assert TailOk(s, t.foods) && HeadOk(s, false, t.foods);
    FedOk(t'.players, t.foods, s.body[0], draws);
    forall a | a in t'.players
      ensures TailOk(t'.players[a], t'.foods) && HeadOk(t'.players[a], a in judged + {id}, t'.foods)
    {
      assert TailOk(t.players[a], t.foods) && HeadOk(t.players[a], a in judged, t.foods);
      assert t'.players[a].body == t.players[a].body;
      OffFoods(t'.players, a, t.foods, t'.foods, s.body[0]);
    }
    forall a, b | a in t'.players && b in t'.players && a != b
      ensures PairOk(t'.players[a], a in judged + {id}, t'.players[b])
    {
      assert PairOk(t.players[a], a in judged, t.players[b]);
    }
  }

  lemma OffFoods(players: Players, a: string, foods: seq<Point>, foods': seq<Point>, eaten: Point)
    requires a in players
    requires forall q :: q in foods' ==> (q in foods && q != eaten) || !Occupied(players, q)
    ensures forall q :: q in players[a].body && (q !in foods || q == eaten) ==> q !in foods'
  {
  }

  function Names(order: seq<string>): set<string> {
    if order == [] then {} else Names(order[..|order| - 1]) + {order[|order| - 1]}
  }

  lemma {:induction false} NamesAreTheMembers(order: seq<string>)
    ensures forall id :: id in Names(order) <==> id in order
    decreases |order|
  {
    if order != [] {
      NamesAreTheMembers(order[..|order| - 1]);
    }
  }

  ghost predicate NoRepeats(order: seq<string>) {
    forall i, j :: 0 <= i < j < |order| ==> order[i] != order[j]
  }

  lemma LastIsNew(order: seq<string>)
    requires NoRepeats(order) && order != []
    ensures order[|order| - 1] !in Names(order[..|order| - 1]) && NoRepeats(order[..|order| - 1])
  {
    NamesAreTheMembers(order[..|order| - 1]);
  }

  lemma {:induction false} JudgeAllMid(t: Table, order: seq<string>, draws: string -> seq<Point>)
    requires Mid(t, {}) && Fair(draws) && Bodies(t.players)
    requires NoRepeats(order) && forall id :: id in order ==> id in t.players
    ensures Mid(JudgeAll(t, order, draws), Names(order))
    decreases |order|
  {
    if order != [] {
      var n := |order| - 1;
      LastIsNew(order);
      JudgeAllMid(t, order[..n], draws);
      assert Attempts(draws(order[n]));
      JudgeMid(JudgeAll(t, order[..n], draws), Names(order[..n]), order[n], draws(order[n]));
    }
  }

  lemma MidGood(t: Table)
    requires Mid(t, t.players.Keys)
    ensures Good(t)
  {
    forall id | id in t.players
      ensures Sound(t.players[id], t.foods)
    {
      var s := t.players[id];
      assert TailOk(s, t.foods) && HeadOk(s, true, t.foods);
      assert s.body == [s.body[0]] + s.body[1..];
    }
    forall id, other | id in t.players && other in t.players && id != other
      ensures Apart(t.players[id], t.players[other])
    {
      var s, o := t.players[id], t.players[other];
      assert TailOk(s, t.foods) && TailOk(o, t.foods);
      assert PairOk(s, true, o) && PairOk(o, true, s);
      assert s.body == [s.body[0]] + s.body[1..];
      assert o.body == [o.body[0]] + o.body[1..];
    }
  }

  /** A tick keeps the invariant, for every visiting order and every random draw. */
  lemma TickKeepsGood(t: Table, chance: Chance)
    requires Good(t) && Visits(chance.order, t.players.Keys) && Fair(chance.draws)
    ensures Bodies(t.players) && Good(Ticked(t, chance))
  {
    MoveAllMid(t);
    var moved := Table(MoveAll(t.players), t.foods);
    JudgeAllMid(moved, chance.order, chance.draws);
    NamesAreTheMembers(chance.order);
    assert Names(chance.order) == t.players.Keys;
    MidGood(Ticked(t, chance));
  }

  // ------------------------------------------------------------------------------
  // What a tick decides
  // ------------------------------------------------------------------------------

  /** The only ways a tick's judging changes a snake s into r; `hit`: its head met another's body. */
  predicate Effect(s: Snake, r: Snake, hit: bool, judged: bool)
    requires s.body != []
  {
    && r.body == s.body && r.direction == s.direction
    && (!judged || !s.alive ==> r == s)
    && (s.alive && !r.alive ==> HitsWall(s) || HitsSelf(s) || hit)
    && (s.alive && r.alive && judged ==> !HitsWall(s) && !HitsSelf(s))
    && (!r.alive ==> r.score == s.score && r.growing == s.growing)
  }

  lemma JudgeEffect(t: Table, x: string, draws: seq<Point>, id: string)
    requires Bodies(t.players) && x in t.players && id in t.players
    ensures Effect(t.players[id], Judge(t, x, draws).players[id], HitsOther(t.players, id), id == x)
  {
  }

  /** Judging never revives anybody and never moves a body, so later hits are hits on the moved snakes. */
  lemma HitsWereThere(before: Players, after: Players, id: string)
    requires before.Keys == after.Keys && id in before && Bodies(before) && Bodies(after)
    requires forall x :: x in before ==> before[x].body == after[x].body && (after[x].alive ==> before[x].alive)
    ensures HitsOther(after, id) ==> HitsOther(before, id)
  {
  }

  lemma {:induction false} JudgeAllEffects(t: Table, order: seq<string>, draws: string -> seq<Point>)
    requires Bodies(t.players) && NoRepeats(order) && forall x :: x in order ==> x in t.players
    ensures forall id :: id in t.players ==>
              Effect(t.players[id], JudgeAll(t, order, draws).players[id], HitsOther(t.players, id), id in Names(order))
    decreases |order|
  {
    if order != [] {
      var n := |order| - 1;
      var before := JudgeAll(t, order[..n], draws);
      JudgeAllEffects(t, order[..n], draws);
      LastIsNew(order);
      forall id | id in t.players
        ensures Effect(t.players[id], JudgeAll(t, order, draws).players[id],
                       HitsOther(t.players, id), id in Names(order))
      {
        HitsWereThere(t.players, before.players, id);
        JudgeEffect(before, order[n], draws(order[n]), id);
      }
    }
  }

  /** Another snake that was judged and lives has its head there. */
  predicate Contested(players: Players, judged: set<string>, id: string, p: Point) {
    exists x :: x in players && x in judged && x != id && players[x].alive && players[x].body != [] && players[x].body[0] == p
  }

  /** A snake that is still to be judged finds its food unless a survivor sits on it. */
  predicate Meal(t: Table, now: Table, judged: set<string>, id: string)
    requires id in t.players && id in now.players && t.players[id].body != []
  {
    var s, r, p := t.players[id], now.players[id], t.players[id].body[0];
    if id in judged then
      r.alive ==> r.growing == (p in t.foods) && r.score == s.score + (if p in t.foods then 10 else 0)
    else
      (p in now.foods <==> p in t.foods) || Contested(now.players, judged, id, p)
  }

  lemma {:induction false} SpawnAvoids(players: Players, foods: seq<Point>, draws: seq<Point>, p: Point)
    requires Occupied(players, p)
    ensures p in Spawned(players, foods, draws) <==> p in foods
    decreases |draws|
  {
    if draws != [] && (Occupied(players, draws[0]) || draws[0] in foods) {
      SpawnAvoids(players, foods, draws[1..], p);
    }
  }

  lemma {:induction false} EatenOthers(foods: seq<Point>, p: Point, q: Point)
    requires p != q
    ensures q in Eaten(foods, p) <==> q in foods
    decreases |foods|
  {
    if foods != [] {
      assert foods == [foods[0]] + foods[1..];
      if foods[0] != p {
        EatenOthers(foods[1..], p, q);
      }
    }
  }

  /** Judging x changes the foods at an occupied cell only if x lives with its head there. */
  lemma JudgeFoods(t: Table, x: string, draws: seq<Point>, q: Point)
    requires Bodies(t.players) && x in t.players && Occupied(t.players, q)
    requires !(Judge(t, x, draws).players[x].alive && t.players[x].body[0] == q)
    ensures q in Judge(t, x, draws).foods <==> q in t.foods
  {
    var s := t.players[x];
    if s.alive && !Dies(t.players, x) && s.body[0] in t.foods {
      var players := t.players[x := Grown(s)];
      var y :| y in t.players && q in t.players[y].body;
      assert q in players[y].body;
      SpawnAvoids(players, Eaten(t.foods, s.body[0]), draws, q);
      EatenOthers(t.foods, s.body[0], q);
    }
  }

  lemma JudgeMeal(t: Table, now: Table, judged: set<string>, x: string, draws: seq<Point>, id: string)
    requires Bodies(t.players) && Bodies(now.players) && now.players.Keys == t.players.Keys
    requires x in t.players && x !in judged && id in t.players
    requires forall y :: y in t.players ==> now.players[y].body == t.players[y].body
    requires id !in judged ==> now.players[id] == t.players[id]
    requires t.players[id].alive ==> !t.players[id].growing
    requires Meal(t, now, judged, id)
    ensures Meal(t, Judge(now, x, draws), judged + {x}, id)
  {
    var p, now' := t.players[id].body[0], Judge(now, x, draws);
    if id !in judged && x != id {
      if Contested(now.players, judged, id, p) {
        var y :| y in now.players && y in judged && y != id && now.players[y].alive && now.players[y].body[0] == p;
        assert now'.players[y] == now.players[y];
      } else if now'.players[x].alive && now.players[x].body[0] == p {
        assert now'.players[x].body[0] == p;
      } else {
        assert p in now.players[id].body;
        JudgeFoods(now, x, draws, p);
      }
    }
  }

  lemma {:induction false} JudgeAllMeals(t: Table, order: seq<string>, draws: string -> seq<Point>, id: string)
    requires Bodies(t.players) && NoRepeats(order) && forall x :: x in order ==> x in t.players
    requires id in t.players && (t.players[id].alive ==> !t.players[id].growing)
    ensures Meal(t, JudgeAll(t, order, draws), Names(order), id)
    decreases |order|
  {
    if order != [] {
      var n := |order| - 1;
      LastIsNew(order);
      JudgeAllMeals(t, order[..n], draws, id);
      JudgeAllEffects(t, order[..n], draws);
      JudgeMeal(t, JudgeAll(t, order[..n], draws), Names(order[..n]), order[n], draws(order[n]), id);
    }
  }

  /**
    The fate of every snake in a tick: bodies are exactly the moved ones; whoever dies ran
    into the wall, itself or a snake that was alive when the tick began; a survivor hit
    neither wall nor itself, and it eats - grows and scores 10 - exactly when its head moved
    onto a food of the start of the tick.
    */
  lemma FateInATick(t: Table, chance: Chance, id: string)
    requires Bodies(t.players) && Visits(chance.order, t.players.Keys) && id in t.players
    ensures var moved := MoveAll(t.players);
      var r := Ticked(t, chance).players[id];
      && Effect(moved[id], r, HitsOther(moved, id), true)
      && (r.alive ==>
            && (r.growing <==> moved[id].body[0] in t.foods)
            && r.score == t.players[id].score + (if moved[id].body[0] in t.foods then 10 else 0))
  {
    var moved := Table(MoveAll(t.players), t.foods);
    JudgeAllEffects(moved, chance.order, chance.draws);
    JudgeAllMeals(moved, chance.order, chance.draws, id);
    NamesAreTheMembers(chance.order);
  }

  /**
    With two players the order decides: the first one judged dies if its head is anywhere on
    the other living snake; the second only if the first is still alive.
    */
  lemma TwoPlayerFate(t: Table, chance: Chance, a: string, b: string)
    requires Bodies(t.players) && Visits(chance.order, t.players.Keys) && chance.order == [a, b]
    ensures var moved := MoveAll(t.players);
      var r := Ticked(t, chance).players;
      && (r[a].alive <==> moved[a].alive && !HitsWall(moved[a]) && !HitsSelf(moved[a])
                          && !(moved[b].alive && moved[a].body[0] in moved[b].body))
      && (r[b].alive <==> moved[b].alive && !HitsWall(moved[b]) && !HitsSelf(moved[b])
                          && !(r[a].alive && moved[b].body[0] in moved[a].body))
  {
    assert a in chance.order && b in chance.order;
    assert forall id :: id in t.players ==> id == a || id == b;
    var t0 := Table(MoveAll(t.players), t.foods);
    assert chance.order[0] != chance.order[1];
    assert chance.order[..1] == [a] && [a][..0] == [];
    assert JudgeAll(t0, [], chance.draws) == t0;
    var t1 := JudgeAll(t0, [a], chance.draws);
    assert t1 == Judge(t0, a, chance.draws(a));
    assert Ticked(t, chance) == Judge(t1, b, chance.draws(b));
    JudgedLife(t0, a, b, chance.draws(a));
    JudgedLife(t1, b, a, chance.draws(b));
  }

  lemma JudgedLife(t: Table, a: string, b: string, draws: seq<Point>)
    requires Bodies(t.players) && a in t.players && b in t.players && a != b
    requires forall id :: id in t.players ==> id == a || id == b
    ensures var s, r := t.players[a], Judge(t, a, draws).players;
      && r[b] == t.players[b] && r[a].body == s.body
      && (r[a].alive <==> s.alive && !HitsWall(s) && !HitsSelf(s)
                          && !(t.players[b].alive && s.body[0] in t.players[b].body))
  {
  }

  /** Head-on: both move onto one cell; the snake judged first dies, the other one lives. */
  lemma HeadOnKillsTheFirst(t: Table, chance: Chance, a: string, b: string)
    requires Bodies(t.players) && Visits(chance.order, t.players.Keys) && chance.order == [a, b]
    requires var moved := MoveAll(t.players);
      && moved[a].alive && moved[b].alive && moved[a].body[0] == moved[b].body[0]
      && !HitsWall(moved[b]) && !HitsSelf(moved[b])
    ensures Alive(Ticked(t, chance).players) == {b}
  {
    TwoPlayerFate(t, chance, a, b);
    assert a in chance.order && b in chance.order;
  }

  // ------------------------------------------------------------------------------
  // Before the first tick, and between ticks
  // ------------------------------------------------------------------------------

  /** A turn never touches the geometry, and never reverses the stored direction. */
  lemma TurnKeepsGood(t: Table, id: string, d: Direction)
    requires Good(t) && id in t.players
    ensures Good(t.(players := t.players[id := Turned(t.players[id], d)]))
    ensures Turned(t.players[id], d).direction != Opposite(t.players[id].direction)
  {
    var t' := t.(players := t.players[id := Turned(t.players[id], d)]);
    forall a | a in t'.players
      ensures Sound(t'.players[a], t'.foods)
    {
      assert Sound(t.players[a], t.foods);
    }
    forall a, b | a in t'.players && b in t'.players && a != b
      ensures Apart(t'.players[a], t'.players[b])
    {
      assert Apart(t.players[a], t.players[b]);
    }
  }

  /** Any number of turns between two ticks. */
  function TurnedBy(s: Snake, ds: seq<Direction>): Snake {
    if ds == [] then s else Turned(TurnedBy(s, ds[..|ds| - 1]), ds[|ds| - 1])
  }

  lemma {:induction false} TurnsKeepTheBody(s: Snake, ds: seq<Direction>)
    ensures TurnedBy(s, ds) == s.(direction := TurnedBy(s, ds).direction)
    decreases |ds|
  {
    if ds != [] {
      TurnsKeepTheBody(s, ds[..|ds| - 1]);
    }
  }

  /**
    When the next move runs back into the neck: exactly when the stored direction is opposite
    to the last step, from body[1] to body[0].  With three cells or more the snake then hits itself.
    */
  lemma ReversesExactlyWhen(s: Snake, last: Direction)
    requires s.alive && |s.body| >= 2 && s.body[0] == Step(s.body[1], last)
    ensures Moved(s).body[0] == s.body[1] <==> s.direction == Opposite(last)
    ensures s.direction == Opposite(last) && |s.body| >= 3 ==> HitsSelf(Moved(s))
  {
    MovedRest(s);
    if s.direction == Opposite(last) && |s.body| >= 3 {
      assert Moved(s).body[1..][1] == s.body[1];
    }
  }

  /** After a move a single turn cannot reverse the snake: the stored direction is the last step. */
  lemma OneTurnNeverReverses(s: Snake, d: Direction)
    requires s.alive && s.body != []
    ensures var m := Moved(s);
      |m.body| >= 2 ==> Moved(Turned(m, d)).body[0] != m.body[1]
  {
    var m := Moved(s);
    MovedRest(s);
    if |m.body| >= 2 {
      assert m.body[1] == m.body[1..][0] == s.body[0];
      ReversesExactlyWhen(Turned(m, d), s.direction);
    }
  }

  /** The side a snake may turn to from d. */
  predicate Sideways(d: Direction, side: Direction) { side != d && side != Opposite(d) }

  /**
    Two turns between two ticks can: a new snake that turns sideways and then back runs into
    itself at its next move, whatever its place and direction.
    */
  lemma TwoTurnsReverse(x: int, y: int, d: Direction, side: Direction)
    requires Sideways(d, side)
    ensures var s := TurnedBy(NewSnake(x, y, d), [side, Opposite(d)]);
      && s.direction == Opposite(d) && s.alive && s.body != [] && Moved(s).body != []
      && HitsSelf(Moved(s))
  {
    var s0 := NewSnake(x, y, d);
    assert [side, Opposite(d)][..1] == [side] && [side][..0] == [];
    assert TurnedBy(s0, [side]) == s0.(direction := side);
    var s := TurnedBy(s0, [side, Opposite(d)]);
    assert s == s0.(direction := Opposite(d));
    assert s0.body[0] == Step(s0.body[1], d);
    ReversesExactlyWhen(s, d);
  }

  lemma SpawnKeepsGood(t: Table, draws: seq<Point>)
    requires Good(t) && |t.foods| < 3 && AllInGrid(draws)
    ensures Good(t.(foods := Spawned(t.players, t.foods, draws)))
  {
    SpawnedOk(t.players, t.foods, draws);
    var t' := t.(foods := Spawned(t.players, t.foods, draws));
    forall a | a in t'.players
      ensures Sound(t'.players[a], t'.foods)
    {
      assert Sound(t.players[a], t.foods);
    }
    forall a, b | a in t'.players && b in t'.players && a != b
      ensures Apart(t'.players[a], t'.players[b])
    {
      assert Apart(t.players[a], t.players[b]);
    }
  }

  function Started(players: Players, d1: seq<Point>, d2: seq<Point>, d3: seq<Point>): Table {
    var f1 := Spawned(players, [], d1);
    var f2 := Spawned(players, f1, d2);
    Table(players, Spawned(players, f2, d3))
  }

  function LeftSnake(): Snake { NewSnake(5, GRID_HEIGHT / 2, Right) }

  function RightSnake(): Snake { NewSnake(GRID_WIDTH - 6, GRID_HEIGHT / 2, Left) }

  lemma LeftSnakeIsSound()
    ensures LeftSnake().body == [Point(5, 15), Point(4, 15), Point(3, 15)] && Sound(LeftSnake(), [])
  {
    var l := LeftSnake();
    assert Step(l.body[1], Right) == l.body[0] && Step(l.body[2], Right) == l.body[1];
    assert Linked(l.body, 1) && Linked(l.body, 2);
  }

  lemma RightSnakeIsSound()
    ensures RightSnake().body == [Point(34, 15), Point(35, 15), Point(36, 15)] && Sound(RightSnake(), [])
  {
    var r := RightSnake();
    assert Step(r.body[1], Left) == r.body[0] && Step(r.body[2], Left) == r.body[1];
    assert Linked(r.body, 1) && Linked(r.body, 2);
  }

  lemma NewSnakesAreSound()
    ensures Sound(LeftSnake(), []) && Sound(RightSnake(), []) && Apart(LeftSnake(), RightSnake())
    ensures Apart(RightSnake(), LeftSnake())
  {
    LeftSnakeIsSound();
    RightSnakeIsSound();
  }

  /** Two joins into an empty room and a start: the invariant holds whatever food is drawn. */
  lemma TwoJoinsStartGood(a: string, b: string, d1: seq<Point>, d2: seq<Point>, d3: seq<Point>)
    requires a != b && AllInGrid(d1) && AllInGrid(d2) && AllInGrid(d3)
    ensures Good(Started(Joined(Joined(map[], a), b), d1, d2, d3))
  {
    var players := Joined(Joined(map[], a), b);
    assert players == map[a := LeftSnake(), b := RightSnake()];
    NewSnakesAreSound();
    var t := Table(players, []);
    assert Good(t);
    SpawnedOk(players, [], d1);
    SpawnKeepsGood(t, d1);
    var f1 := Spawned(players, [], d1);
    SpawnedOk(players, f1, d2);
    SpawnKeepsGood(Table(players, f1), d2);
    SpawnKeepsGood(Table(players, Spawned(players, f1, d2)), d3);
  }

  /**
    A join into a waiting room keeps the invariant exactly when it does not put a second
    snake on the right: that happens when the only player left is the one who joined second.
    */
  lemma JoinKeepsGoodIff(players: Players, id: string)
    requires Good(Table(players, []))
    requires forall p :: p in players ==>
               players[p].alive && (players[p].body == LeftSnake().body || players[p].body == RightSnake().body)
    ensures Good(Table(Joined(players, id), [])) <==>
              !(|players| == 1 && id !in players && exists p :: p in players && players[p].body == RightSnake().body)
  {
    NewSnakesAreSound();
    var joined := Joined(players, id);
    if |players| < 2 {
      if |players| == 0 {
        assert players == map[];
      } else {
        LonePlayer(players);
        var p :| p in players && players.Keys == {p};
        assert Sound(players[p], []);
        if id != p && players[p].body == RightSnake().body {
          assert players[p].body[0] in joined[id].body;
          assert !Apart(joined[p], joined[id]);
        }
      }
    }
  }

  /** Such a join: the first player leaves a waiting room of two, and somebody else comes. */
  lemma RejoinOverlaps(a: string, b: string, c: string)
    requires a != b && c != b
    ensures var left := Joined(Joined(map[], a), b) - {a};
      var players := Joined(left, c);
      && players.Keys == {b, c} && players[b].body == players[c].body
      && Good(Table(left, [])) && !Good(Table(players, []))
  {
    NewSnakesAreSound();
    assert Joined(Joined(map[], a), b) == map[a := LeftSnake(), b := RightSnake()];
    var left := Joined(Joined(map[], a), b) - {a};
    assert left == map[b := RightSnake()];
    JoinKeepsGoodIff(left, c);
  }

  /** Nobody has to leave: a player who joins twice is moved to the right, where the next one is put as well. */
  lemma JoinTwiceOverlaps(a: string, b: string)
    requires a != b
    ensures var twice := Joined(Joined(map[], a), a);
      var players := Joined(twice, b);
      && players.Keys == {a, b} && players[a].body == players[b].body
      && Good(Table(twice, [])) && !Good(Table(players, []))
  {
    NewSnakesAreSound();
    var once := Joined(map[], a);
    assert once == map[a := LeftSnake()];
    var twice := Joined(once, a);
    assert twice == map[a := RightSnake()];
    JoinKeepsGoodIff(twice, b);
  }

  lemma LonePlayer(players: Players)
    requires |players| == 1
    ensures exists p :: p in players && players.Keys == {p}
  {
    var p :| p in players;
    assert |players.Keys - {p}| == 0;
    assert players.Keys == {p};
  }
}
