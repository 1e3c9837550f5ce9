/**
 * The `Game` object of the main loop: it owns the ball and the list of
 * arcs, and every operation that changes them in place is proved to leave
 * the game in the state the value-level rules of module GameRules compute.
 * Rendering, sound, the clock and the event queue are not modelled: a
 * frame's events reduce to whether the window was closed, and random draws
 * are parameters.
 */
module GameLoop {
  import opened Common
  import opened Geometry
  import opened Boundary
  import opened BallPhysics
  import opened GameRules

  /** The configurations of a list of arcs, in list order. */
  function Configs(arcs: seq<BoundaryArc>): (r: seq<BoundaryConfig>)
    reads arcs
    ensures |r| == |arcs|
    ensures forall i :: 0 <= i < |arcs| ==> r[i] == arcs[i].config
  {
    seq(|arcs|, i reads arcs requires 0 <= i < |arcs| => arcs[i].config)
  }

  /** The arc objects of a list. */
  function Members(arcs: seq<BoundaryArc>): set<BoundaryArc>
  {
    set a | a in arcs
  }

  /** No arc object occurs twice in the list. */
  predicate Distinct(arcs: seq<BoundaryArc>)
  {
    forall i, j :: 0 <= i < j < |arcs| ==> arcs[i] != arcs[j]
  }

  /** Python's `list.remove(x)`: drops the first element identical to `x`. */
  function RemoveFirst(arcs: seq<BoundaryArc>, x: BoundaryArc): seq<BoundaryArc>
    requires x in arcs
  {
    if arcs[0] == x then arcs[1..] else [arcs[0]] + RemoveFirst(arcs[1..], x)
  }

  /** `list.remove` drops exactly one occurrence of `x` and keeps every other element. */
  lemma {:induction false} RemoveFirstRemovesOne(arcs: seq<BoundaryArc>, x: BoundaryArc)
    requires x in arcs
    ensures |RemoveFirst(arcs, x)| == |arcs| - 1
    ensures multiset(RemoveFirst(arcs, x)) == multiset(arcs) - multiset{x}
  {
    if arcs[0] != x {
      RemoveFirstRemovesOne(arcs[1..], x);
      assert arcs == [arcs[0]] + arcs[1..];
    } else {
      assert arcs == [x] + arcs[1..];
    }
  }

  /**
   * In a list without repeated objects, removing the last element by
   * identity is dropping the last position: this is why the game's
   * `remove` of the active arc shortens the list from its end.
   */
  lemma {:induction false} RemoveLastOfDistinct(arcs: seq<BoundaryArc>)
    requires |arcs| > 0 && Distinct(arcs)
    ensures RemoveFirst(arcs, arcs[|arcs| - 1]) == arcs[..|arcs| - 1]
  {
    var x := arcs[|arcs| - 1];
    if |arcs| > 1 {
      assert arcs[0] != x;
      var tail := arcs[1..];
      assert tail[|tail| - 1] == x;
      RemoveLastOfDistinct(tail);
      assert [arcs[0]] + tail[..|tail| - 1] == arcs[..|arcs| - 1];
    }
  }

  /** Dropping the last arc drops the last configuration, and keeps the arcs distinct. */
  lemma ConfigsPrefix(arcs: seq<BoundaryArc>)
    requires |arcs| > 0
    ensures Configs(arcs[..|arcs| - 1]) == Configs(arcs)[..|arcs| - 1]
    ensures Distinct(arcs) ==> Distinct(arcs[..|arcs| - 1])
  {
  }

  /** The draws of a frame are ones the random module can return. */
  predicate FrameValid(frame: Frame)
  {
    |frame.draws.restart.arcs| == Iterations(frame.draws.restart.count) && frame.draws.bounce.Valid()
  }

  class Game {
    /**
     * The settings. The source writes the drawn ball radius into the ball
     * configuration it shares with the ball; here the ball's own `config`
     * is that shared record, and `config.ballConfig` keeps the initial one.
     */
    const config: GameConfig
    const math: MathLib
    const ball: Ball
    var boundaries: seq<BoundaryArc>
    var running: bool

    /** The arcs are distinct objects, each holding a valid configuration. */
    ghost predicate Valid()
      reads this, boundaries
    {
      && math.Valid()
      && Distinct(boundaries)
      && forall i :: 0 <= i < |boundaries| ==> boundaries[i].Valid()
    }

    function Arcs(): seq<BoundaryConfig>
      reads this, boundaries
    {
      Configs(boundaries)
    }

    /** The game as a value of the rules. */
    function World(): GameRules.World
      reads this, ball, boundaries
    {
      GameRules.World(ball.State(), Arcs())
    }

    constructor(config: GameConfig, math: MathLib, ball: Ball)
      ensures this.config == config && this.math == math && this.ball == ball
      ensures boundaries == [] && running
    {
      this.config := config;
      this.math := math;
      this.ball := ball;
      boundaries := [];
      running := true;
    }

    /**
     * `Game(config)`: creates the ball from the ball configuration, draws its
     * radius, then builds the arcs; the game is running. An exception of
     * `_create_boundaries` aborts the construction.
     */
    static method Start(config: GameConfig, math: MathLib, d: RestartDraw) returns (r: Result<Game>)
      requires math.Valid() && |d.arcs| == Iterations(d.count)
      ensures var built := GameRules.CreateBoundaries(config, d.count, d.arcs);
        && (r.Ok? <==> built.Ok?)
        && (r.Err? ==> r.error == built.error)
        && (r.Ok? ==> && fresh(r.value) && fresh(r.value.ball)
                      && r.value.Valid() && r.value.running
                      && r.value.config == config && r.value.math == math
                      && r.value.World()
                         == GameRules.World(
                              Initialized(BallState(config.ballConfig.initialPosition,
                                                    config.ballConfig.initialSpeed,
                                                    config.ballConfig), d.ballRadius),
                              built.value))
    {
      var ball := new Ball(config.ballConfig);
      var game := new Game(config, math, ball);
      game.InitializeBallProperties(d.ballRadius);
      var arcs := game.CreateBoundaries(d.count, d.arcs);
      if arcs.Err? {
        return Err(arcs.error);
      }
      game.boundaries := arcs.value;
      return Ok(game);
    }

    /** `_initialize_ball_properties`: vertical speed reset and radius drawn (the colour is left out). */
    method InitializeBallProperties(radius: int)
      modifies ball
      ensures ball.State() == Initialized(old(ball.State()), radius)
    {
      ball.speedY := ball.config.initialSpeed.y;
      ball.config := ball.config.(radius := radius);
    }

    /**
     * `_create_boundaries` for `count` arcs drawn by `randint` with the
     * per-iteration draws `draws`: the arcs are new objects whose
     * configurations are the schedule of `GameRules.CreateBoundaries`.
     */
    method CreateBoundaries(count: int, draws: seq<ArcDraw>) returns (r: Result<seq<BoundaryArc>>)
      requires |draws| == Iterations(count)
      ensures var built := GameRules.CreateBoundaries(config, count, draws);
        && (r.Ok? <==> built.Ok?)
        && (r.Err? ==> r.error == built.error)
        && (r.Ok? ==> && Configs(r.value) == built.value
                      && Distinct(r.value)
                      && forall i :: 0 <= i < |r.value| ==> fresh(r.value[i]) && r.value[i].Valid())
    {
      var baseRadius := Min(config.width, config.height) / 2 - 10;
      if count + 1 == 0 {
        return Err("integer division or modulo by zero");
      }
      var radiusStep := FloorDiv(baseRadius, count + 1);
      r := BuildArcs(baseRadius, radiusStep, count, draws);
    }

    /**
     * The loop of `_create_boundaries`: one arc per iteration with radius
     * `base - i * step`, stopping at the first non-positive radius; a
     * configuration that fails validation aborts with its `ValueError`.
     */
    method BuildArcs(base: int, step: int, count: int, draws: seq<ArcDraw>) returns (r: Result<seq<BoundaryArc>>)
      requires |draws| == Iterations(count)
      ensures var built := ArcsFrom(config, base, step, draws, 0);
        && (r.Ok? <==> built.Ok?)
        && (r.Err? ==> r.error == built.error)
        && (r.Ok? ==> && Configs(r.value) == built.value
                      && Distinct(r.value)
                      && forall i :: 0 <= i < |r.value| ==> fresh(r.value[i]) && r.value[i].Valid())
    {
      ghost var all := ArcsFrom(config, base, step, draws, 0);
      ghost var built: seq<BoundaryConfig> := [];
      PrependNothing(all);
      var arcs: seq<BoundaryArc> := [];
      var i := 0;
      while i < Iterations(count)
        invariant 0 <= i <= |draws|
        invariant all == Prepend(built, ArcsFrom(config, base, step, draws, i))
        invariant Configs(arcs) == built
        invariant Distinct(arcs)
        invariant forall k :: 0 <= k < |arcs| ==> fresh(arcs[k]) && arcs[k].Valid()
      {
        var radius := base - i * step;
        if radius <= 0 {
          break;
        }
        var arcConfig := ArcConfig(config, radius, draws[i]);
        ArcsFromUnfold(config, base, step, draws, i);
        var arc := BoundaryArc.Create(arcConfig);
        if arc.Err? {
          return Err(arc.error);
        }
        PrependTwice(built, arcConfig, ArcsFrom(config, base, step, draws, i + 1));
        arcs := arcs + [arc.value];
        built := built + [arcConfig];
        i := i + 1;
      }
      ArcsFromStop(config, base, step, draws, i);
      assert built + [] == built;
      return Ok(arcs);
    }

    /** `handle_events`: a quit event stops the loop after the current frame. */
    method HandleEvents(quit: bool)
      modifies this
      ensures running == (old(running) && !quit)
      ensures boundaries == old(boundaries)
    {
      if quit {
        running := false;
      }
    }

    /**
     * `_handle_ball_boundary_collision` with any arc: in its gap the arc is
     * removed from the list by identity (`list.remove` raises `ValueError`
     * when it is not there); otherwise the ball bounces about the unit
     * normal from the centre, which raises `ZeroDivisionError` at the centre.
     */
    method HandleBallBoundaryCollision(boundary: BoundaryArc, d: BounceDraw) returns (r: Outcome)
      requires math.Valid() && d.Valid()
      modifies this, ball
      ensures running == old(running)
      ensures var p, a := old(ball.State()).position, boundary.config;
        if a.IsPointInEmptyArc(math, p.x, p.y) then
          && ball.State() == old(ball.State())
          && (boundary in old(boundaries) ==> r == Pass && boundaries == RemoveFirst(old(boundaries), boundary))
          && (boundary !in old(boundaries) ==> r == Fail("list.remove(x): x not in list") && boundaries == old(boundaries))
        else if p == Vec(a.centerX, a.centerY) then
          r == Fail("float division by zero") && ball.State() == old(ball.State()) && boundaries == old(boundaries)
        else
          && r == Pass && boundaries == old(boundaries)
          && ball.State() == old(ball.State()).(velocity := Bounced(old(ball.State()).velocity,
                                                                    OutwardNormal(math, a, p),
                                                                    ball.config.elasticity,
                                                                    ball.config.speedAdjustment, d))
    {
      if boundary.config.IsPointInEmptyArc(math, ball.positionX, ball.positionY) {
        if boundary !in boundaries {
          return Fail("list.remove(x): x not in list");
        }
        boundaries := RemoveFirst(boundaries, boundary);
        return Pass;
      }
      var distance := Hypot(math, ball.positionX - boundary.config.centerX, ball.positionY - boundary.config.centerY);
      if distance == 0.0 {
        return Fail("float division by zero");
      }
      ghost var a, p := boundary.config, ball.State().position;
      var normalX := (ball.positionX - boundary.config.centerX) / distance;
      var normalY := (ball.positionY - boundary.config.centerY) / distance;
      assert Vec(normalX, normalY) == OutwardNormal(math, a, p);
      ball.ReflectOffBoundary(normalX, normalY, d);
      return Pass;
    }

    /** `check_collisions`: the active (last) arc only, and only when the ball pokes out of it. */
    method CheckCollisions(d: BounceDraw) returns (r: Outcome)
      requires Valid() && d.Valid()
      modifies this, ball
      ensures var expected := GameRules.CheckCollisions(math, old(World()), d);
        && (r.Pass? <==> expected.Ok?)
        && (r.Pass? ==> World() == expected.value && Valid())
        && (r.Fail? ==> r.error == expected.error)
      ensures running == old(running)
      ensures boundaries == old(boundaries) || (|old(boundaries)| > 0 && boundaries == old(boundaries)[..|old(boundaries)| - 1])
    {
      ghost var w := World();
      if |boundaries| > 0 {
        var boundary := boundaries[|boundaries| - 1];
        assert boundary.config == Active(w);
        if boundary.config.IsPointOutsideBoundary(math, ball.positionX, ball.positionY, ball.config.radius as real) {
          ghost var before := boundaries;
          ghost var p := w.ball.position;
          assert GameRules.CheckCollisions(math, w, d) == HandleCollision(math, w, d);
          RemoveLastOfDistinct(boundaries);
          r := HandleBallBoundaryCollision(boundary, d);
          if Active(w).IsPointInEmptyArc(math, p.x, p.y) {
            assert boundaries == before[..|before| - 1];
            ConfigsPrefix(before);
            assert World() == w.(arcs := w.arcs[..|w.arcs| - 1]);
          } else {
            assert boundaries == before;
          }
          return;
        }
      }
      return Pass;
    }

    /** `keep_ball_within_boundary`: pull the ball back inside the active arc along the radius. */
    method KeepBallWithinBoundary()
      requires Valid()
      modifies ball
      ensures World() == KeepWithin(math, old(World()))
    {
      ghost var w := World();
      if |boundaries| > 0 {
        var boundary := boundaries[|boundaries| - 1];
        assert boundary.config == Active(w);
        var offset := Vec(ball.positionX - boundary.config.centerX, ball.positionY - boundary.config.centerY);
        var distance := Hypot(math, offset.x, offset.y);
        if distance + ball.config.radius as real > boundary.config.radius {
          var excess := distance + ball.config.radius as real - boundary.config.radius;
          var dir := Direction(offset, distance);
          ball.positionX, ball.positionY := ball.positionX - dir.x * excess, ball.positionY - dir.y * excess;
          assert Arcs() == w.arcs;
        }
      }
    }

    /**
     * `restart_game`: the ball back at the screen centre with no horizontal
     * speed, its properties redrawn and a new list of arcs. When building the
     * arcs raises, the ball has already been reset and the arcs are kept.
     */
    method RestartGame(d: RestartDraw) returns (r: Outcome)
      requires Valid() && |d.arcs| == Iterations(d.count)
      modifies this, ball
      ensures var expected := Restart(config, old(World()), d);
        && (r.Pass? <==> expected.Ok?)
        && (r.Pass? ==> && World() == expected.value && Valid()
                        && fresh(Members(boundaries)))
        && (r.Fail? ==> && r.error == expected.error && boundaries == old(boundaries)
                        && ball.State() == ResetBall(config, old(ball.State()), d.ballRadius))
      ensures running == old(running)
    {
      ball.positionX := (config.width / 2) as real;
      ball.positionY := (config.height / 2) as real;
      ball.speedX := 0.0;
      InitializeBallProperties(d.ballRadius);
      var arcs := CreateBoundaries(d.count, d.arcs);
      if arcs.Err? {
        return Fail(arcs.error);
      }
      boundaries := arcs.value;
      return Pass;
    }

    /** `_update_boundaries`: every arc rotated once, in list order. */
    method UpdateBoundaries()
      requires Valid()
      modifies Members(boundaries)
      ensures World() == old(World()).(arcs := RotateAll(old(Arcs())))
      ensures Valid()
    {
      var i := 0;
      while i < |boundaries|
        invariant 0 <= i <= |boundaries|
        invariant Valid()
        invariant forall k :: 0 <= k < i ==> boundaries[k].config == old(boundaries[k].config).Rotated()
        invariant forall k :: i <= k < |boundaries| ==> boundaries[k].config == old(boundaries[k].config)
      {
        boundaries[i].UpdateAngles();
        i := i + 1;
      }
    }

    /**
     * The check at the head of each pass of `run`: a ball farther from the
     * screen centre than `min(width, height)` restarts the game.
     */
    method RestartIfOutOfBounds(d: RestartDraw) returns (r: Outcome)
      requires Valid() && |d.arcs| == Iterations(d.count)
      modifies this, ball
      ensures var expected := Started(config, math, old(World()), d);
        && (r.Pass? <==> expected.Ok?)
        && (r.Pass? ==> World() == expected.value && Valid())
        && (r.Fail? ==> r.error == expected.error)
      ensures running == old(running)
      ensures fresh(Members(boundaries) - Members(old(boundaries)))
    {
      var distance := ball.GetDistanceFromCenter(math, (config.width / 2) as real, (config.height / 2) as real);
      LongerThan(distance, SqNorm(Sub(ball.State().position, ScreenCenter(config))), Min(config.width, config.height) as real);
      if distance > Min(config.width, config.height) as real {
        r := RestartGame(d);
        return;
      }
      return Pass;
    }

    /**
     * One pass of the loop in `run`: events, the restart check, the move,
     * collisions, rotation, containment and gravity, in that order. An
     * exception ends the frame where it is raised.
     */
    method Step(frame: Frame) returns (r: Outcome)
      requires Valid() && FrameValid(frame)
      modifies this, ball, Members(boundaries)
      ensures var expected := Tick(config, math, old(World()), frame.draws);
        && (r.Pass? <==> expected.Ok?)
        && (r.Pass? ==> World() == expected.value && Valid())
        && (r.Fail? ==> r.error == expected.error)
      ensures running == (old(running) && !frame.quit)
      ensures fresh(Members(boundaries) - Members(old(boundaries)))
    {
      ghost var w0 := World();
      HandleEvents(frame.quit);
      r := RestartIfOutOfBounds(frame.draws.restart);
      if r.Fail? {
        TickStartFails(config, math, w0, frame.draws);
        return;
      }
      ghost var w1 := World();
      r := Advance(frame.draws.bounce);
      if r.Fail? {
        TickCollisionFails(config, math, w0, frame.draws, w1);
      } else {
        TickCompletes(config, math, w0, frame.draws, w1,
                      GameRules.CheckCollisions(math, w1.(ball := Moved(w1.ball)), frame.draws.bounce).value);
      }
    }

    /**
     * The rest of a pass of `run` after the restart check: the move, the
     * collisions, the rotation of the arcs, containment and gravity.
     */
    method Advance(d: BounceDraw) returns (r: Outcome)
      requires Valid() && d.Valid()
      modifies this, ball, Members(boundaries)
      ensures var collided := GameRules.CheckCollisions(math, old(World()).(ball := Moved(old(World()).ball)), d);
        && (r.Pass? <==> collided.Ok?)
        && (r.Pass? ==> World() == Settled(math, collided.value) && Valid())
        && (r.Fail? ==> r.error == collided.error)
      ensures running == old(running)
      ensures Members(boundaries) <= Members(old(boundaries))
    {
      ghost var w1 := World();
      ball.UpdatePosition();
      assert World() == w1.(ball := Moved(w1.ball));
      r := CheckCollisions(d);
      if r.Fail? {
        return;
      }
      Settle();
    }

    /** The end of a pass of `run`: rotate the arcs, keep the ball within the active one, apply gravity. */
    method Settle()
      requires Valid()
      modifies ball, Members(boundaries)
      ensures World() == Settled(math, old(World())) && Valid()
    {
      UpdateBoundaries();
      KeepBallWithinBoundary();
      ghost var w4 := World();
      ball.speedY := ball.speedY + ball.config.gravity;
      assert ball.State() == Fall(w4.ball);
      assert Arcs() == w4.arcs;
    }

    /**
     * `run` over the frames supplied: frames are processed while the game is
     * running; a frame that raises ends the loop with its exception. The
     * final state is the one `Play` computes.
     */
    method Run(frames: seq<Frame>) returns (r: Outcome)
      requires Valid() && FramesWellFormed(frames)
      requires forall i :: 0 <= i < |frames| ==> frames[i].draws.bounce.Valid()
      modifies this, ball, Members(boundaries)
      ensures !old(running) ==> r == Pass && World() == old(World()) && !running
      ensures old(running) ==>
        var expected := Play(config, math, old(World()), frames, 0);
        && (r.Pass? <==> expected.Ok?)
        && (r.Pass? ==> World() == expected.value.0 && running == expected.value.1)
        && (r.Fail? ==> r.error == expected.error)
    {
      if !running {
        return Pass;
      }
      ghost var expected := Play(config, math, World(), frames, 0);
      var i := 0;
      while i < |frames| && running
        invariant 0 <= i <= |frames|
        invariant Valid()
        invariant fresh(Members(boundaries) - Members(old(boundaries)))
        invariant running ==> expected == Play(config, math, World(), frames, i)
        invariant !running ==> expected == Ok((World(), false))
      {
        r := Step(frames[i]);
        if r.Fail? {
          return;
        }
        i := i + 1;
      }
      return Pass;
    }
  }

  /** The construction so far followed by the result of the iterations still to run. */
  function Prepend(built: seq<BoundaryConfig>, rest: Result<seq<BoundaryConfig>>): Result<seq<BoundaryConfig>>
  {
    match rest
    case Ok(tail) => Ok(built + tail)
    case Err(e) => Err(e)
  }

  /** A frame whose restart raises ends with that exception. */
  lemma TickStartFails(cfg: GameConfig, math: MathLib, w: World, t: TickDraw)
    requires math.Valid() && |t.restart.arcs| == Iterations(t.restart.count)
    requires Started(cfg, math, w, t.restart).Err?
    ensures Tick(cfg, math, w, t) == Err(Started(cfg, math, w, t.restart).error)
  {
  }

  /** A frame whose collision step raises ends with that exception. */
  lemma TickCollisionFails(cfg: GameConfig, math: MathLib, w: World, t: TickDraw, w1: World)
    requires math.Valid() && |t.restart.arcs| == Iterations(t.restart.count)
    requires Started(cfg, math, w, t.restart) == Ok(w1)
    requires GameRules.CheckCollisions(math, w1.(ball := Moved(w1.ball)), t.bounce).Err?
    ensures Tick(cfg, math, w, t) == Err(GameRules.CheckCollisions(math, w1.(ball := Moved(w1.ball)), t.bounce).error)
  {
  }

  /** A frame that raises nothing ends in the settled state after the collisions. */
  lemma TickCompletes(cfg: GameConfig, math: MathLib, w: World, t: TickDraw, w1: World, w2: World)
    requires math.Valid() && |t.restart.arcs| == Iterations(t.restart.count)
    requires Started(cfg, math, w, t.restart) == Ok(w1)
    requires GameRules.CheckCollisions(math, w1.(ball := Moved(w1.ball)), t.bounce) == Ok(w2)
    ensures Tick(cfg, math, w, t) == Ok(Settled(math, w2))
  {
  }

  /** One iteration of the arc loop with a positive radius: the arc is appended, or validation raises. */
  lemma ArcsFromUnfold(cfg: GameConfig, base: int, step: int, draws: seq<ArcDraw>, i: nat)
    requires i < |draws| && base - i * step > 0
    ensures var c := ArcConfig(cfg, base - i * step, draws[i]);
      ArcsFrom(cfg, base, step, draws, i)
      == if c.Validate().Fail? then Err(c.Validate().error) else Prepend([c], ArcsFrom(cfg, base, step, draws, i + 1))
  {
  }

  /** The arc loop ends when the draws run out or at the first non-positive radius. */
  lemma ArcsFromStop(cfg: GameConfig, base: int, step: int, draws: seq<ArcDraw>, i: nat)
    requires i <= |draws| && (i == |draws| || base - i * step <= 0)
    ensures ArcsFrom(cfg, base, step, draws, i) == Ok([])
  {
  }

  lemma PrependNothing(rest: Result<seq<BoundaryConfig>>)
    ensures Prepend([], rest) == rest
  {
    if rest.Ok? {
      assert [] + rest.value == rest.value;
    }
  }

  lemma PrependTwice(built: seq<BoundaryConfig>, c: BoundaryConfig, rest: Result<seq<BoundaryConfig>>)
    ensures Prepend(built, Prepend([c], rest)) == Prepend(built + [c], rest)
  {
    if rest.Ok? {
      assert built + ([c] + rest.value) == built + [c] + rest.value;
    }
  }
}
