/**
  What the single rules of Snakes amount to on the grid: where a snake gets, when it turns,
  where food comes from and what one judgement changes.
  */
module SnakeLaws {
  import opened Snakes

  // ------------------------------------------------------------------------------
  // Moving
  // ------------------------------------------------------------------------------

  /** How many steps straight on from p stay in the grid of 40 by 30; row 0 is the top one. */
  function StepsLeft(p: Point, d: Direction): int {
    match d
    case Up => p.y
    case Down => 29 - p.y
    case Left => p.x
    case Right => 39 - p.x
  }

  function MovedBy(s: Snake, n: nat): (m: Snake)
    requires s.alive && s.body != []
    ensures m.alive && m.body != [] && m.direction == s.direction
  {
    if n == 0 then s else Moved(MovedBy(s, n - 1))
  }

  lemma {:induction false} StepsRunOut(s: Snake, n: nat)
    requires s.alive && s.body != []
    ensures StepsLeft(MovedBy(s, n).body[0], s.direction) == StepsLeft(s.body[0], s.direction) - n
    ensures s.direction.Up? || s.direction.Down? ==> MovedBy(s, n).body[0].x == s.body[0].x
    ensures s.direction.Left? || s.direction.Right? ==> MovedBy(s, n).body[0].y == s.body[0].y
    decreases n
  {
    if n > 0 {
      StepsRunOut(s, n - 1);
      MovedRest(MovedBy(s, n - 1));
    }
  }

  /** A snake that goes straight on from inside the grid hits the wall exactly when none of them is left. */
  lemma StraightIntoTheWall(s: Snake, n: nat)
    requires s.alive && s.body != [] && 0 <= s.body[0].x < 40 && 0 <= s.body[0].y < 30
    ensures HitsWall(MovedBy(s, n)) <==> n > StepsLeft(s.body[0], s.direction)
  {
    StepsRunOut(s, n);
  }

  /** A move puts one cell before the old ones, and drops the last unless the snake has eaten. */
  lemma MovedIs(s: Snake)
    requires s.alive && s.body != []
    ensures var m := Moved(s);
      && m.body[1..] == (if s.growing then s.body else s.body[..|s.body| - 1])
      && !m.growing && m.direction == s.direction && m.alive && m.score == s.score
  {
    var b := [Step(s.body[0], s.direction)] + s.body;
    assert b[1..] == s.body;
    assert b[..|b| - 1][1..] == s.body[..|s.body| - 1];
  }

  /** Opposite steps cancel each other. */
  lemma OppositeCancels(p: Point, d: Direction)
    ensures Step(Step(p, d), Opposite(d)) == p && Opposite(Opposite(d)) == d && Opposite(d) != d
  {
  }

  /** A turn is taken exactly if it does not point back, and changes nothing but the direction. */
  lemma TurnedIs(s: Snake, d: Direction)
    ensures Turned(s, d) == if Opposite(d) == s.direction then s else s.(direction := d)
  {
    OppositeCancels(Point(0, 0), d);
  }

  /** The first player starts on the left and heads right, the second on the right and heads left; a third is refused. */
  lemma JoinedAre(a: string, b: string, c: string)
    requires a != b
    ensures var both := map[
              a := Snake([Point(5, 15), Point(4, 15), Point(3, 15)], Right, false, true, 0),
              b := Snake([Point(34, 15), Point(35, 15), Point(36, 15)], Left, false, true, 0)];
      Joined(Joined(map[], a), b) == both && Joined(both, c) == both
  {
    LeftSnakeIsSound();
    RightSnakeIsSound();
    var one := Joined(map[], a);
    assert one == map[a := LeftSnake()] && |one| == 1;
    var both := Joined(one, b);
    assert both == map[a := LeftSnake(), b := RightSnake()] && |both| == 2;
  }

  // ------------------------------------------------------------------------------
  // Food
  // ------------------------------------------------------------------------------

  /** No body, dead or alive, and no food is there. */
  predicate Free(players: Players, foods: seq<Point>, p: Point) {
    (forall id :: id in players ==> p !in players[id].body) && p !in foods
  }

  predicate FirstFree(players: Players, foods: seq<Point>, draws: seq<Point>, i: int) {
    && 0 <= i < |draws| && Free(players, foods, draws[i])
    && forall j :: 0 <= j < i ==> !Free(players, foods, draws[j])
  }

  /** What one spawnFood does: the first free draw is added; without one nothing changes. */
  ghost predicate Fed(players: Players, foods: seq<Point>, foods': seq<Point>, draws: seq<Point>) {
    && (forall i :: FirstFree(players, foods, draws, i) ==> foods' == foods + [draws[i]])
    && ((forall i :: 0 <= i < |draws| ==> !Free(players, foods, draws[i])) ==> foods' == foods)
  }

  lemma {:induction false} SpawnedFeeds(players: Players, foods: seq<Point>, draws: seq<Point>)
    ensures Fed(players, foods, Spawned(players, foods, draws), draws)
    decreases |draws|
  {
    if draws != [] {
      assert Free(players, foods, draws[0]) <==> !Occupied(players, draws[0]) && draws[0] !in foods;
      SpawnedFeeds(players, foods, draws[1..]);
      forall i | FirstFree(players, foods, draws, i) && i > 0
        ensures FirstFree(players, foods, draws[1..], i - 1)
      {
        assert forall j :: 0 <= j < i - 1 ==> draws[1..][j] == draws[j + 1];
      }
      if forall i :: 0 <= i < |draws| ==> !Free(players, foods, draws[i]) {
        assert forall i :: 0 <= i < |draws| - 1 ==> draws[1..][i] == draws[i + 1];
      }
    }
  }

  lemma {:induction false} SomeFirstFree(players: Players, foods: seq<Point>, draws: seq<Point>, k: nat) returns (i: nat)
    requires k < |draws| && Free(players, foods, draws[k])
    ensures FirstFree(players, foods, draws, i)
    decreases k
  {
    if j :| 0 <= j < k && Free(players, foods, draws[j]) {
      i := SomeFirstFree(players, foods, draws, j);
    } else {
      i := k;
    }
  }

  /** Fed leaves no choice. */
  lemma FedIsExact(players: Players, foods: seq<Point>, draws: seq<Point>, foods': seq<Point>)
    ensures Fed(players, foods, foods', draws) <==> foods' == Spawned(players, foods, draws)
  {
    SpawnedFeeds(players, foods, draws);
    if k :| 0 <= k < |draws| && Free(players, foods, draws[k]) {
      var i := SomeFirstFree(players, foods, draws, k);
    }
  }

  /** The position of the first free draw decides. */
  lemma FirstFreeDecides(players: Players, foods: seq<Point>, draws: seq<Point>, i: nat)
    requires i <= |draws| && forall j :: 0 <= j < i ==> !Free(players, foods, draws[j])
    requires i < |draws| ==> Free(players, foods, draws[i])
    ensures var foods' := if i < |draws| then foods + [draws[i]] else foods;
      Fed(players, foods, foods', draws) && foods' == Spawned(players, foods, draws)
  {
    SpawnedFeeds(players, foods, draws);
    assert i < |draws| ==> FirstFree(players, foods, draws, i);
  }

  /** A started room has food: each of the three calls adds one that has a free draw. */
  lemma StartedFoods(players: Players, d1: seq<Point>, d2: seq<Point>, d3: seq<Point>)
    ensures exists f1, f2 ::
              Fed(players, [], f1, d1) && Fed(players, f1, f2, d2) && Fed(players, f2, Started(players, d1, d2, d3).foods, d3)
    ensures Started(players, d1, d2, d3).players == players
  {
    var f1 := Spawned(players, [], d1);
    var f2 := Spawned(players, f1, d2);
    SpawnedFeeds(players, [], d1);
    SpawnedFeeds(players, f1, d2);
    SpawnedFeeds(players, f2, d3);
  }

  // ------------------------------------------------------------------------------
  // One judgement
  // ------------------------------------------------------------------------------

  /** Out of the grid, on its own body, or on another living snake. */
  predicate Crashed(players: Players, id: string)
    requires id in players && players[id].body != []
  {
    var b := players[id].body;
    || !(0 <= b[0].x < 40 && 0 <= b[0].y < 30)
    || (exists k :: 0 < k < |b| && b[k] == b[0])
    || (exists other :: other in players && other != id && players[other].alive && b[0] in players[other].body)
  }

  /** The foods without the one at position i. */
  function Less(foods: seq<Point>, i: nat): seq<Point>
    requires i < |foods|
  {
    foods[..i] + foods[i + 1..]
  }

  lemma {:induction false} EatenIs(foods: seq<Point>, i: nat)
    requires i < |foods| && foods[i] !in foods[..i]
    ensures Eaten(foods, foods[i]) == Less(foods, i)
    decreases |foods|
  {
    if i == 0 {
      assert foods[..0] + foods[1..] == foods[1..];
    } else {
      assert foods[0] in foods[..i];
      assert foods[1..][..i - 1] == foods[..i][1..];
      EatenIs(foods[1..], i - 1);
      assert foods[..i] == [foods[0]] + foods[1..][..i - 1];
    }
  }

  /**
    One iteration of the collision loop: a dead snake is passed over, one that crashed dies,
    one with its head on a food grows, scores 10 and has that food replaced, and nothing
    else changes.
    */
  lemma JudgeIs(t: Table, id: string, draws: seq<Point>)
    requires id in t.players && Bodies(t.players)
    ensures var s, t' := t.players[id], Judge(t, id, draws);
      && (forall other :: other in t.players && other != id ==> t'.players[other] == t.players[other])
      && (!s.alive ==> t' == t)
      && (s.alive && Crashed(t.players, id) ==> t'.foods == t.foods && t'.players[id] == s.(alive := false))
      && (s.alive && !Crashed(t.players, id) && s.body[0] !in t.foods ==> t' == t)
      && (forall i :: 0 <= i < |t.foods| && s.alive && !Crashed(t.players, id)
                      && t.foods[i] == s.body[0] && s.body[0] !in t.foods[..i] ==>
            && t'.players[id] == s.(growing := true, score := s.score + 10)
            && Fed(t.players, Less(t.foods, i), t'.foods, draws))
  {
    var s := t.players[id];
    CrashedIsDies(t.players, id);
    forall i | 0 <= i < |t.foods| && s.alive && !Crashed(t.players, id)
               && t.foods[i] == s.body[0] && s.body[0] !in t.foods[..i]
      ensures Judge(t, id, draws).players[id] == s.(growing := true, score := s.score + 10)
      ensures Fed(t.players, Less(t.foods, i), Judge(t, id, draws).foods, draws)
    {
      EatenIs(t.foods, i);
      var grown := t.players[id := Grown(s)];
      SpawnedFeeds(grown, Less(t.foods, i), draws);
      SameBodies(t.players, grown, Less(t.foods, i), Judge(t, id, draws).foods, draws);
    }
  }

  lemma CrashedIsDies(players: Players, id: string)
    requires id in players && players[id].body != []
    ensures Crashed(players, id) <==> Dies(players, id)
  {
    var b := players[id].body;
    if k :| 0 < k < |b| && b[k] == b[0] {
      assert b[1..][k - 1] == b[0];
    }
    if b[0] in b[1..] {
      var k :| 0 <= k < |b| - 1 && b[1..][k] == b[0];
      assert b[k + 1] == b[0];
    }
  }

  /** Only the bodies matter for food. */
  lemma SameBodies(players: Players, players': Players, foods: seq<Point>, foods': seq<Point>, draws: seq<Point>)
    requires players.Keys == players'.Keys && forall id :: id in players ==> players[id].body == players'[id].body
    requires Fed(players', foods, foods', draws)
    ensures Fed(players, foods, foods', draws)
  {
    assert forall p :: Free(players, foods, p) <==> Free(players', foods, p);
    forall i | FirstFree(players, foods, draws, i)
      ensures foods' == foods + [draws[i]]
    {
      assert FirstFree(players', foods, draws, i);
    }
  }

  // ------------------------------------------------------------------------------
  // The end
  // ------------------------------------------------------------------------------

  predicate Lives(players: Players, id: string) { id in players && players[id].alive }

  ghost predicate SomeLives(players: Players) { exists a :: Lives(players, a) }

  ghost predicate TwoLive(players: Players) { exists a, b :: a != b && Lives(players, a) && Lives(players, b) }

  lemma {:induction false} SubsetSize(a: set<string>, b: set<string>)
    requires a <= b
    ensures |a| <= |b|
    decreases |a|
  {
    if a != {} {
      var x :| x in a;
      SubsetSize(a - {x}, b - {x});
    }
  }

  lemma LivingAre(players: Players, winner: string)
    ensures |Alive(players)| >= 2 <==> TwoLive(players)
    ensures |Alive(players)| >= 1 <==> SomeLives(players)
    ensures Alive(players) == {winner} ==> Lives(players, winner)
  {
    var alive := Alive(players);
    assert forall a :: a in alive <==> Lives(players, a);
    if |alive| >= 2 {
      var a :| a in alive;
      assert |alive - {a}| > 0;
      var b :| b in alive - {a};
      assert Lives(players, a) && Lives(players, b);
    }
    if a, b :| a != b && Lives(players, a) && Lives(players, b) {
      assert {a, b} <= alive;
      SubsetSize({a, b}, alive);
    }
    if |alive| >= 1 {
      var a :| a in alive;
    }
  }
}
