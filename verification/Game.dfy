/**
  The snake and room objects of examples/snake_battle/game/game.go, updated in place and
  proved against the rules of Snakes.
  */
module Game {
  import R = Snakes
  import L = SnakeLaws

  class Snake {
    var body: seq<R.Point>
    var direction: R.Direction
    var growing: bool
    var alive: bool
    var score: int

    function View(): R.Snake
      reads this
    {
      R.Snake(body, direction, growing, alive, score)
    }

    constructor (x: int, y: int, d: R.Direction)
      ensures |body| == 3 && forall i :: 0 <= i < 3 ==> body[i] == R.Behind(x, y, d, i)
      ensures R.Chain(body) && R.Distinct(body)
      ensures View() == R.NewSnake(x, y, d)
    {
      var cells := [R.Point(x, y)];
      for i := 1 to 3
        invariant |cells| == i && forall k :: 0 <= k < i ==> cells[k] == R.Behind(x, y, d, k)
        invariant cells[0] == R.Point(x, y)
        invariant i == 2 ==> cells[1] == Beside(x, y, d, 1)
      {
        cells := cells + [Beside(x, y, d, i)];
      }
      body, direction, growing, alive, score := cells, d, false, true, 0;
      new;
      NewBody(x, y, d, body);
    }

    /** The switch of NewSnake. */
    static function Beside(x: int, y: int, d: R.Direction, i: nat): R.Point {
      match d
      case Up => R.Point(x, y + i)
      case Down => R.Point(x, y - i)
      case Left => R.Point(x + i, y)
      case Right => R.Point(x - i, y)
    }

    static lemma NewBody(x: int, y: int, d: R.Direction, body: seq<R.Point>)
      requires |body| == 3 && forall i :: 0 <= i < 3 ==> body[i] == R.Behind(x, y, d, i)
      ensures R.Chain(body) && R.Distinct(body) && body == R.NewSnake(x, y, d).body
    {
      assert R.Step(body[1], d) == body[0] && R.Step(body[2], d) == body[1];
      assert R.Linked(body, 1) && R.Linked(body, 2);
      assert body == [body[0], body[1], body[2]];
    }

    method Move()
      requires alive ==> body != []
      modifies this
      ensures View() == R.Moved(old(View()))
      ensures old(alive) ==> body == [R.Step(old(body[0]), direction)]
                                     + (if old(growing) then old(body) else old(body)[..|old(body)| - 1])
    {
      if !alive {
        return;
      }
      var newHead := body[0];
      match direction {
        case Up => newHead := newHead.(y := newHead.y - 1);
        case Down => newHead := newHead.(y := newHead.y + 1);
        case Left => newHead := newHead.(x := newHead.x - 1);
        case Right => newHead := newHead.(x := newHead.x + 1);
      }
      body := [newHead] + body;
      if !growing {
        body := body[..|body| - 1];
      }
      growing := false;
    }

    method SetDirection(d: R.Direction)
      modifies this
      ensures View() == R.Turned(old(View()), d)
      ensures direction == if d == R.Opposite(old(direction)) then old(direction) else d
    {
      if direction == R.Up && d == R.Down {
        return;
      }
      if direction == R.Down && d == R.Up {
        return;
      }
      if direction == R.Left && d == R.Right {
        return;
      }
      if direction == R.Right && d == R.Left {
        return;
      }
      direction := d;
    }

    method Grow()
      modifies this
      ensures View() == R.Grown(old(View()))
    {
      growing := true;
      score := score + 10;
    }

    method CheckSelfCollision() returns (hit: bool)
      requires body != []
      ensures hit <==> R.HitsSelf(View())
    {
      for i := 1 to |body|
        invariant body[0] !in body[1..i]
      {
        if body[0] == body[i] {
          assert body[1..][i - 1] == body[0];
          return true;
        }
        assert body[1..i + 1] == body[1..i] + [body[i]];
      }
      assert body[1..|body|] == body[1..];
      return false;
    }

    method CheckWallCollision() returns (hit: bool)
      requires body != []
      ensures hit <==> R.HitsWall(View())
      ensures hit <==> !(0 <= body[0].x < 40 && 0 <= body[0].y < 30)
    {
      var head := body[0];
      hit := head.x < 0 || head.x >= R.GRID_WIDTH || head.y < 0 || head.y >= R.GRID_HEIGHT;
    }
  }

  class Room {
    var players: map<string, Snake>
    var foods: seq<R.Point>
    var phase: R.Phase

    ghost predicate Valid()
      reads this
    {
      forall a, b :: a in players && b in players && a != b ==> players[a] != players[b]
    }

    function Views(): (v: R.Players)
      reads this`players, players.Values
      ensures v.Keys == players.Keys
    {
      map id | id in players :: players[id].View()
    }

    function View(): R.Table
      reads this`players, this`foods, players.Values
    {
      R.Table(Views(), foods)
    }

    constructor ()
      ensures Valid() && players == map[] && foods == [] && phase == R.Waiting
    {
      players, foods, phase := map[], [], R.Waiting;
    }

    method AddPlayer(id: string) returns (ok: bool)
      requires Valid()
      modifies this`players
      ensures Valid() && ok == (|old(players)| < 2)
      ensures Views() == R.Joined(old(Views()), id)
      ensures forall x :: x in players && x != id ==> x in old(players) && players[x] == old(players)[x]
      ensures ok ==> fresh(players[id])
    {
      if |players| >= 2 {
        SameSize();
        return false;
      }
      SameSize();
      var snake: Snake;
      if |players| == 0 {
        snake := new Snake(5, R.GRID_HEIGHT / 2, R.Right);
      } else {
        snake := new Snake(R.GRID_WIDTH - 6, R.GRID_HEIGHT / 2, R.Left);
      }
      players := players[id := snake];
      return true;
    }

    lemma SameSize()
      ensures |Views()| == |players|
    {
      assert |Views().Keys| == |players.Keys|;
    }

    method RemovePlayer(id: string)
      requires Valid()
      modifies this`players
      ensures Valid() && players == old(players) - {id}
    {
      players := players - {id};
    }

    method SetDirection(id: string, d: R.Direction)
      requires Valid()
      modifies players.Values
      ensures Views() == if id in old(players) then old(Views())[id := R.Turned(old(Views())[id], d)] else old(Views())
    {
      if id in players {
        players[id].SetDirection(d);
        assert forall x :: x in players && x != id ==> players[x].View() == old(players[x].View());
      }
    }

    method IsOccupied(p: R.Point) returns (hit: bool)
      ensures hit <==> R.Occupied(Views(), p)
    {
      var rest := players.Keys;
      while rest != {}
        invariant rest <= players.Keys
        invariant forall id :: id in players && id !in rest ==> p !in players[id].body
      {
        var id :| id in rest;
        if p in players[id].body {
          assert p in Views()[id].body;
          return true;
        }
        rest := rest - {id};
      }
      return false;
    }

    /** The checks of spawnFood for one draw. */
    method IsFree(p: R.Point) returns (free: bool)
      ensures free <==> L.Free(Views(), foods, p)
    {
      var collision := IsOccupied(p);
      if p in foods {
        collision := true;
      }
      free := !collision;
    }

    /** The loop of spawnFood: the first free draw. */
    method FreeDraw(draws: seq<R.Point>) returns (i: nat)
      ensures i <= |draws| && forall j :: 0 <= j < i ==> !L.Free(Views(), foods, draws[j])
      ensures i < |draws| ==> L.Free(Views(), foods, draws[i])
    {
      i := 0;
      while i < |draws|
        invariant i <= |draws| && forall j :: 0 <= j < i ==> !L.Free(Views(), foods, draws[j])
      {
        var free := IsFree(draws[i]);
        if free {
          return;
        }
        i := i + 1;
      }
    }

    /** spawnFood with the draws that the random generator yields. */
    method SpawnFood(draws: seq<R.Point>)
      modifies this`foods
      ensures Views() == old(Views())
      ensures foods == R.Spawned(old(Views()), old(foods), draws)
      ensures L.Fed(old(Views()), old(foods), foods, draws)
    {
      var i := FreeDraw(draws);
      L.FirstFreeDecides(Views(), foods, draws, i);
      if i < |draws| {
        foods := foods + [draws[i]];
      }
    }

    /** The inner loop over the other snakes, in any order. */
    method CollidesWithOther(id: string) returns (hit: bool)
      requires id in players && players[id].body != []
      ensures hit <==> R.HitsOther(Views(), id)
    {
      hit := false;
      var head := players[id].body[0];
      var rest := players.Keys;
      while rest != {}
        invariant rest <= players.Keys
        invariant hit ==> R.HitsOther(Views(), id)
        invariant !hit ==> forall other :: other in players && other !in rest && other != id && players[other].alive ==>
                             head !in players[other].body
      {
        var other :| other in rest;
        rest := rest - {other};
        if other != id && players[other].alive && head in players[other].body {
          assert Views()[other].alive && head in Views()[other].body;
          hit := true;
        }
      }
    }

    /** The three collision checks of update, in their order. */
    method Crashes(id: string) returns (dead: bool)
      requires id in players && players[id].body != []
      ensures dead <==> R.Dies(Views(), id)
    {
      var snake := players[id];
      assert Views()[id] == snake.View();
      dead := snake.CheckWallCollision();
      if dead {
        return;
      }
      dead := snake.CheckSelfCollision();
      if dead {
        return;
      }
      dead := CollidesWithOther(id);
    }

    /** The snake grows, and food i is replaced by a new one if a free cell is drawn. */
    method Eat(id: string, i: nat, draws: seq<R.Point>)
      requires Valid() && id in players && i < |foods| && foods[i] !in foods[..i]
      modifies this`foods, players[id]
      ensures Views() == old(Views())[id := R.Grown(old(Views())[id])]
      ensures foods == R.Spawned(Views(), R.Eaten(old(foods), old(foods)[i]), draws)
    {
      L.EatenIs(foods, i);
      players[id].Grow();
      foods := foods[..i] + foods[i + 1..];
      SpawnFood(draws);
    }

    /** The food loop of update. */
    method FindFood(head: R.Point) returns (i: nat)
      ensures i <= |foods| && head !in foods[..i]
      ensures i < |foods| ==> foods[i] == head
      ensures i < |foods| <==> head in foods
    {
      i := 0;
      while i < |foods| && head != foods[i]
        invariant i <= |foods| && head !in foods[..i]
      {
        assert foods[..i + 1] == foods[..i] + [foods[i]];
        i := i + 1;
      }
      assert i == |foods| ==> foods[..i] == foods;
    }

    method Kill(id: string)
      requires Valid() && id in players
      modifies players[id]
      ensures Views() == old(Views())[id := old(Views())[id].(alive := false)]
    {
      players[id].alive := false;
    }

    /** One iteration of the collision loop of update. */
    method JudgePlayer(id: string, draws: seq<R.Point>)
      requires Valid() && id in players && R.Bodies(Views())
      modifies this`foods, players[id]
      ensures Views() == R.Judge(old(View()), id, draws).players
      ensures foods == R.Judge(old(View()), id, draws).foods
    {
      var snake := players[id];
      assert Views()[id] == snake.View();
      if !snake.alive {
        return;
      }
      var dead := Crashes(id);
      if dead {
        Kill(id);
        return;
      }
      var i := FindFood(snake.body[0]);
      if i < |foods| {
        Eat(id, i, draws);
      }
    }

    /** The game is over when at most one snake lives; then the winner is that one, if any. */
    method CountAlive() returns (count: nat, winner: string)
      ensures count == |R.Alive(Views())|
      ensures count == 1 ==> R.Alive(Views()) == {winner}
    {
      count, winner := 0, "";
      var rest := players.Keys;
      ghost var seen: set<string> := {};
      while rest != {}
        invariant rest <= players.Keys
        invariant seen == set id | id in players && id !in rest && players[id].alive
        invariant count == |seen| && (count > 0 ==> winner in seen)
      {
        var id :| id in rest;
        rest := rest - {id};
        if players[id].alive {
          assert id !in seen;
          seen := seen + {id};
          count, winner := count + 1, id;
        }
      }
      assert seen == R.Alive(Views());
      if count == 1 {
        assert |seen - {winner}| == 0;
        assert seen == {winner};
      }
    }

    method MoveAll(order: seq<string>)
      requires Valid() && R.Bodies(Views()) && R.Visits(order, players.Keys)
      modifies players.Values
      ensures Views() == R.MoveAll(old(Views()))
    {
      for k := 0 to |order|
        invariant forall id :: id in players ==>
                    players[id].View() == if id in order[..k] then R.Moved(old(players[id].View())) else old(players[id].View())
      {
        var id := order[k];
        assert id in order && id in players;
        assert order[..k + 1] == order[..k] + [id];
        assert id !in order[..k];
        assert old(Views())[id].body != [];
        if players[id].alive {
          players[id].Move();
        }
      }
      assert order[..|order|] == order;
    }

    method JudgeAll(order: seq<string>, draws: string -> seq<R.Point>)
      requires Valid() && R.Bodies(Views()) && R.Visits(order, players.Keys)
      modifies this`foods, players.Values
      ensures View() == R.JudgeAll(old(View()), order, draws)
    {
      for k := 0 to |order|
        invariant View() == R.JudgeAll(old(View()), order[..k], draws)
      {
        assert order[k] in order;
        assert order[..k + 1][..k] == order[..k];
        JudgePlayer(order[k], draws(order[k]));
      }
      assert order[..|order|] == order;
    }

    method Tick(moveOrder: seq<string>, chance: R.Chance)
      requires Valid() && R.Bodies(Views())
      requires R.Visits(moveOrder, players.Keys) && R.Visits(chance.order, players.Keys)
      modifies this`foods, players.Values
      ensures View() == R.Ticked(old(View()), chance)
    {
      MoveAll(moveOrder);
      JudgeAll(chance.order, chance.draws);
    }

    method FinishIfOver() returns (winner: string)
      modifies this`phase
      ensures View() == old(View())
      ensures phase == if |R.Alive(Views())| <= 1 then R.Done else old(phase)
      ensures |R.Alive(Views())| == 1 ==> R.Alive(Views()) == {winner}
    {
      var count: nat;
      count, winner := CountAlive();
      if count <= 1 {
        phase := R.Done;
      }
    }

    /**
      update: one tick, for any order of the two outer map iterations and any draws.  A room
      that is not playing does not change; a playing one follows the rules exactly and is
      done as soon as at most one snake lives.
      */
    method Update(moveOrder: seq<string>, chance: R.Chance) returns (winner: string)
      requires Valid() && R.Bodies(Views())
      requires R.Visits(moveOrder, players.Keys) && R.Visits(chance.order, players.Keys)
      modifies this`foods, this`phase, players.Values
      ensures Valid() && players == old(players)
      ensures old(phase) != R.Playing ==> View() == old(View()) && phase == old(phase)
      ensures old(phase) == R.Playing ==>
                && View() == R.Ticked(old(View()), chance)
                && (phase == if |R.Alive(Views())| <= 1 then R.Done else R.Playing)
                && (|R.Alive(Views())| == 1 ==> R.Alive(Views()) == {winner})
      ensures old(phase) == R.Playing ==>
                && (phase == R.Playing <==> L.TwoLive(Views()))
                && (phase != R.Playing && L.SomeLives(Views()) ==> L.Lives(Views(), winner))
    {
      winner := "";
      if phase != R.Playing {
        return;
      }
      winner := Play(moveOrder, chance);
      L.LivingAre(Views(), winner);
    }

    method Play(moveOrder: seq<string>, chance: R.Chance) returns (winner: string)
      requires Valid() && R.Bodies(Views())
      requires R.Visits(moveOrder, players.Keys) && R.Visits(chance.order, players.Keys)
      modifies this`foods, this`phase, players.Values
      ensures View() == R.Ticked(old(View()), chance)
      ensures phase == if |R.Alive(Views())| <= 1 then R.Done else old(phase)
      ensures |R.Alive(Views())| == 1 ==> R.Alive(Views()) == {winner}
    {
      Tick(moveOrder, chance);
      assert View() == R.Ticked(old(View()), chance) && phase == old(phase);
      winner := FinishIfOver();
    }

    /** Start: three attempts at food, then the room plays. */
    method Start(d1: seq<R.Point>, d2: seq<R.Point>, d3: seq<R.Point>)
      requires Valid()
      modifies this`foods, this`phase
      ensures Valid() && players == old(players)
      ensures old(phase) != R.Waiting ==> foods == old(foods) && phase == old(phase)
      ensures old(phase) == R.Waiting ==> phase == R.Playing
      ensures old(phase) == R.Waiting && old(foods) == [] ==> View() == R.Started(old(Views()), d1, d2, d3)
      ensures old(phase) == R.Waiting ==>
                exists f1, f2 :: L.Fed(Views(), old(foods), f1, d1) && L.Fed(Views(), f1, f2, d2) && L.Fed(Views(), f2, foods, d3)
    {
      if phase != R.Waiting {
        return;
      }
      phase := R.Playing;
      SpawnFood(d1);
      SpawnFood(d2);
      SpawnFood(d3);
    }
  }

  method TwoPlayers(a: string, b: string) returns (room: Room)
    requires a != b
    ensures fresh(room) && fresh(room.players.Values) && room.Valid()
    ensures room.Views() == R.Joined(R.Joined(map[], a), b) && room.players.Keys == {a, b}
    ensures room.foods == [] && room.phase == R.Waiting
  {
    room := new Room();
    assert room.Views() == map[];
    var _ := room.AddPlayer(a);
    assert room.players.Keys == {a};
    assert |room.players.Keys| == 1;
    var _ := room.AddPlayer(b);
    assert room.players.Keys == {a, b};
  }

  /** What happens between two ticks and in the tick: turns in any number, then both map loops. */
  datatype Round = Round(turns: seq<(string, R.Direction)>, moveOrder: seq<string>, chance: R.Chance)

  ghost predicate Fair(round: Round, ids: set<string>) {
    R.Visits(round.moveOrder, ids) && R.Visits(round.chance.order, ids) && R.Fair(round.chance.draws)
  }

  /** The table after some turns; somebody who is not in the room turns nothing. */
  function TurnedAll(t: R.Table, turns: seq<(string, R.Direction)>): (t': R.Table)
    ensures t'.players.Keys == t.players.Keys && t'.foods == t.foods
  {
    if turns == [] then t
    else
      var before, turn := TurnedAll(t, turns[..|turns| - 1]), turns[|turns| - 1];
      if turn.0 !in t.players then before
      else before.(players := before.players[turn.0 := R.Turned(before.players[turn.0], turn.1)])
  }

  lemma {:induction false} TurnsKeepGood(t: R.Table, turns: seq<(string, R.Direction)>)
    requires R.Good(t)
    ensures R.Good(TurnedAll(t, turns))
    decreases |turns|
  {
    if turns != [] {
      var n := |turns| - 1;
      TurnsKeepGood(t, turns[..n]);
      if turns[n].0 in t.players {
        R.TurnKeepsGood(TurnedAll(t, turns[..n]), turns[n].0, turns[n].1);
      }
    }
  }

  lemma GoodBodies(t: R.Table)
    requires R.Good(t)
    ensures R.Bodies(t.players)
  {
    forall id | id in t.players
      ensures t.players[id].body != []
    {
      assert R.Sound(t.players[id], t.foods);
    }
  }

  datatype Progress = Progress(table: R.Table, phase: R.Phase)

  /** The room after one round: turns count at any time, the tick only while it is playing. */
  ghost function AfterRound(g: Progress, round: Round): Progress {
    var turned := TurnedAll(g.table, round.turns);
    if !g.phase.Playing? || !R.Bodies(turned.players) || !R.Visits(round.chance.order, turned.players.Keys) then
      Progress(turned, g.phase)
    else
      var t := R.Ticked(turned, round.chance);
      Progress(t, if |R.Alive(t.players)| <= 1 then R.Done else R.Playing)
  }

  ghost function AfterRounds(g: Progress, rounds: seq<Round>): Progress {
    if rounds == [] then g else AfterRound(AfterRounds(g, rounds[..|rounds| - 1]), rounds[|rounds| - 1])
  }

  /** Any players turn any number of times. */
  method PlayTurns(room: Room, turns: seq<(string, R.Direction)>)
    requires room.Valid() && R.Good(room.View())
    modifies room.players.Values
    ensures R.Good(room.View()) && room.View() == TurnedAll(old(room.View()), turns)
  {
    for k := 0 to |turns|
      invariant room.Valid() && room.View() == TurnedAll(old(room.View()), turns[..k])
    {
      assert turns[..k + 1][..k] == turns[..k];
      room.SetDirection(turns[k].0, turns[k].1);
    }
    assert turns[..|turns|] == turns;
    TurnsKeepGood(old(room.View()), turns);
  }

  /** The turns, and one tick. */
  method PlayRound(room: Room, round: Round)
    requires room.Valid() && R.Good(room.View()) && Fair(round, room.players.Keys)
    modifies room`foods, room`phase, room.players.Values
    ensures room.Valid() && R.Good(room.View()) && room.players == old(room.players)
    ensures Progress(room.View(), room.phase) == AfterRound(old(Progress(room.View(), room.phase)), round)
  {
    ghost var before := Progress(room.View(), room.phase);
    PlayTurns(room, round.turns);
    ghost var turned := room.View();
    GoodBodies(turned);
    R.TickKeepsGood(room.View(), round.chance);
    var _ := room.Update(round.moveOrder, round.chance);
    RoundIs(before, round, turned, room.View(), room.phase);
  }

  lemma RoundIs(g: Progress, round: Round, turned: R.Table, t: R.Table, phase: R.Phase)
    requires turned == TurnedAll(g.table, round.turns) && R.Bodies(turned.players)
    requires R.Visits(round.chance.order, turned.players.Keys)
    requires !g.phase.Playing? ==> t == turned && phase == g.phase
    requires g.phase.Playing? ==>
               t == R.Ticked(turned, round.chance) && phase == if |R.Alive(t.players)| <= 1 then R.Done else R.Playing
    ensures AfterRound(g, round) == Progress(t, phase)
  {
  }

  method PlayRounds(room: Room, rounds: seq<Round>)
    requires room.Valid() && R.Good(room.View())
    requires forall r :: r in rounds ==> Fair(r, room.players.Keys)
    modifies room`foods, room`phase, room.players.Values
    ensures R.Good(room.View())
    ensures Progress(room.View(), room.phase) == AfterRounds(old(Progress(room.View(), room.phase)), rounds)
  {
    for k := 0 to |rounds|
      invariant room.Valid() && R.Good(room.View()) && room.players == old(room.players)
      invariant Progress(room.View(), room.phase) == AfterRounds(old(Progress(room.View(), room.phase)), rounds[..k])
    {
      assert rounds[k] in rounds;
      assert rounds[..k + 1][..k] == rounds[..k];
      PlayRound(room, rounds[k]);
    }
    assert rounds[..|rounds|] == rounds;
  }

  /**
    A whole match: two players join, the room starts, and however often they turn between the
    ticks, whatever is drawn and in whatever order the players are visited, the room goes
    through the rounds as the rules say and the invariant holds at the end.
    */
  method Match(a: string, b: string, d1: seq<R.Point>, d2: seq<R.Point>, d3: seq<R.Point>, rounds: seq<Round>)
      returns (room: Room)
    requires a != b && R.AllInGrid(d1) && R.AllInGrid(d2) && R.AllInGrid(d3)
    requires forall r :: r in rounds ==> Fair(r, {a, b})
    ensures R.Good(room.View())
    ensures var begin := R.Started(R.Joined(R.Joined(map[], a), b), d1, d2, d3);
      Progress(room.View(), room.phase) == AfterRounds(Progress(begin, R.Playing), rounds)
  {
    room := TwoPlayers(a, b);
    room.Start(d1, d2, d3);
    R.TwoJoinsStartGood(a, b, d1, d2, d3);
    PlayRounds(room, rounds);
  }

  /** The first of two players leaves a waiting room. */
  method LeftBehind(a: string, b: string) returns (room: Room)
    requires a != b
    ensures fresh(room) && room.Valid() && room.phase == R.Waiting
    ensures room.Views() == R.Joined(R.Joined(map[], a), b) - {a}
  {
    room := TwoPlayers(a, b);
    room.RemovePlayer(a);
    assert room.Views() == R.Joined(R.Joined(map[], a), b) - {a};
  }

  /** Another player comes: two snakes on the same cells. */
  method LeaveAndRejoin(a: string, b: string, c: string) returns (room: Room)
    requires a != b && c != b
    ensures room.phase == R.Waiting && room.Views().Keys == {b, c}
    ensures room.Views()[b].body == room.Views()[c].body
    ensures !R.Good(R.Table(room.Views(), []))
  {
    room := LeftBehind(a, b);
    R.RejoinOverlaps(a, b, c);
    var _ := room.AddPlayer(c);
  }
}
