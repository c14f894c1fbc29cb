/**
 * Falling Stars: stars carrying a multiplication fall down a canvas; typing
 * a star's product catches it for 10 points, and every star that falls past
 * the bottom edge costs a life. A new star appears once more than two
 * seconds have accumulated since the last one.
 */
module FallingStars {
  import opened Wrappers
  import opened Collections
  import opened Draws

  /** Milliseconds that must accumulate (strictly more) before a star spawns. */
  const SpawnInterval: real := 2000.0
  /** Lives at the start of a game. */
  const StartLives: int := 3
  /** Points for a caught star. */
  const CatchReward: int := 10
  /** The height at which stars appear, above the top edge. */
  const SpawnY: real := -30.0
  /** Horizontal margin kept free on each side of the canvas. */
  const Margin: real := 30.0
  /** Milliseconds per nominal frame: a star moves `speed` pixels per 16 ms. */
  const FrameMs: real := 16.0

  /** A star: its two factors, their product, its position and its speed in pixels per 16 ms. */
  datatype Star = Star(a: int, b: int, ans: int, x: real, y: real, speed: real)

  /** The four `Math.random()` values a spawned star consumes, in order. */
  datatype SpawnDraws = SpawnDraws(ua: real, ub: real, ux: real, us: real)

  predicate RandomDraws(d: SpawnDraws)
  {
    IsRandom(d.ua) && IsRandom(d.ub) && IsRandom(d.ux) && IsRandom(d.us)
  }

  /** A star as spawned stars are: factors in [2, 9], their product as answer, speed in [1, 2.5). */
  predicate WellFormed(s: Star)
  {
    2 <= s.a <= 9 && 2 <= s.b <= 9 && s.ans == s.a * s.b && 1.0 <= s.speed < 2.5
  }

  /** `0 <= u * w < w` for a draw `u` and a positive width `w`. */
  lemma ScaleReal(u: real, w: real, p: real)
    requires IsRandom(u) && p == u * w
    ensures w > 0.0 ==> 0.0 <= p < w
  {
  }

  /** The product of two non-negative reals is non-negative. */
  lemma NonNegProduct(p: real, q: real)
    ensures p >= 0.0 && q >= 0.0 ==> p * q >= 0.0
  {
  }

  /** `Math.random() * (width - 60) + 30`: a position away from both side margins when the canvas is wide enough. */
  function SpawnX(u: real, width: real): (x: real)
    requires IsRandom(u)
    ensures width > 2.0 * Margin ==> Margin <= x < width - Margin
  {
    var p := u * (width - 2.0 * Margin);
    ScaleReal(u, width - 2.0 * Margin, p);
    p + Margin
  }

  /** `1 + Math.random() * 1.5`: a speed in [1, 2.5). */
  function SpawnSpeed(u: real): (v: real)
    requires IsRandom(u)
    ensures 1.0 <= v < 2.5
  {
    1.0 + u * 1.5
  }

  /**
   * A new star on a canvas `width` pixels wide: it appears above the top
   * edge, away from the side margins when the canvas is wider than both.
   */
  function NewStar(d: SpawnDraws, width: real): (s: Star)
    requires RandomDraws(d)
    ensures WellFormed(s)
    ensures s.a == Factor(d.ua) && s.b == Factor(d.ub) && s.y == SpawnY
    ensures width > 2.0 * Margin ==> Margin <= s.x < width - Margin
  {
    var a := Factor(d.ua);
    var b := Factor(d.ub);
    Star(a, b, a * b, SpawnX(d.ux, width), SpawnY, SpawnSpeed(d.us))
  }

  /** A star after `dt` milliseconds: it moves down `speed` pixels per 16 ms, and nothing else changes. */
  function Advance(s: Star, dt: real): (r: Star)
    ensures r.a == s.a && r.b == s.b && r.ans == s.ans && r.x == s.x && r.speed == s.speed
    ensures WellFormed(s) && dt >= 0.0 ==> r.y >= s.y
  {
    NonNegProduct(s.speed, dt / FrameMs);
    s.(y := s.y + s.speed * (dt / FrameMs))
  }

  /** Moving a star for `dt1` and then `dt2` milliseconds is moving it for `dt1 + dt2`. */
  lemma AdvanceCompose(s: Star, dt1: real, dt2: real)
    ensures Advance(Advance(s, dt1), dt2) == Advance(s, dt1 + dt2)
  {
    assert s.speed * (dt1 / FrameMs) + s.speed * (dt2 / FrameMs) == s.speed * ((dt1 + dt2) / FrameMs);
  }

  /** Every star of a list moved by `dt` milliseconds, in the same order. */
  function AdvanceAll(stars: seq<Star>, dt: real): (r: seq<Star>)
    ensures |r| == |stars|
    ensures forall k :: 0 <= k < |r| ==> r[k] == Advance(stars[k], dt)
  {
    if stars == [] then [] else [Advance(stars[0], dt)] + AdvanceAll(stars[1..], dt)
  }

  /** Whether a star has passed the bottom edge of a canvas `height` pixels high. */
  predicate HasFallen(s: Star, height: real)
  {
    s.y > height
  }

  /** A well-formed star past the bottom edge stays past it as time goes on; one above the edge was above it before. */
  lemma FallenStays(s: Star, dt: real, height: real)
    requires WellFormed(s) && dt >= 0.0
    ensures HasFallen(s, height) ==> HasFallen(Advance(s, dt), height)
    ensures !HasFallen(Advance(s, dt), height) ==> !HasFallen(s, height)
  {
  }

  /** The stars still on the canvas, in their order: none of them is past the bottom edge. */
  function Survivors(stars: seq<Star>, height: real): (r: seq<Star>)
    ensures |r| <= |stars|
    ensures forall k :: 0 <= k < |r| ==> !HasFallen(r[k], height)
  {
    if stars == [] then []
    else
      var rest := Survivors(stars[1..], height);
      if HasFallen(stars[0], height) then rest else [stars[0]] + rest
  }

  /** The number of stars past the bottom edge. */
  function Fallen(stars: seq<Star>, height: real): nat
  {
    if stars == [] then 0
    else (if HasFallen(stars[0], height) then 1 else 0) + Fallen(stars[1..], height)
  }

  /** Every star either survives or is counted as fallen, never both. */
  lemma {:induction false} SurvivorsFallen(stars: seq<Star>, height: real)
    ensures |Survivors(stars, height)| + Fallen(stars, height) == |stars|
  {
    if stars != [] {
      SurvivorsFallen(stars[1..], height);
    }
  }

  /** Filtering keeps the order: the survivors of a concatenation are the concatenated survivors. */
  lemma {:induction false} SurvivorsAppend(s: seq<Star>, t: seq<Star>, height: real)
    ensures Survivors(s + t, height) == Survivors(s, height) + Survivors(t, height)
    ensures Fallen(s + t, height) == Fallen(s, height) + Fallen(t, height)
  {
    if s != [] {
      assert (s + t)[1..] == s[1..] + t;
      SurvivorsAppend(s[1..], t, height);
    } else {
      assert s + t == t;
    }
  }

  /** When no star has fallen, all of them survive, unchanged and in order. */
  lemma {:induction false} NoneFallen(stars: seq<Star>, height: real)
    requires forall k :: 0 <= k < |stars| ==> !HasFallen(stars[k], height)
    ensures Survivors(stars, height) == stars && Fallen(stars, height) == 0
  {
    if stars != [] {
      assert forall k :: 0 <= k < |stars[1..]| ==> stars[1..][k] == stars[k + 1];
      NoneFallen(stars[1..], height);
    }
  }

  /** Whether the accumulated time `timer + dt` spawns a star. */
  predicate SpawnDue(timer: real, dt: real)
  {
    timer + dt > SpawnInterval
  }

  /** The spawn timer after a frame: reset to 0 when a star spawned, else accumulated. */
  function NextTimer(timer: real, dt: real): (t: real)
    ensures t <= SpawnInterval
  {
    if SpawnDue(timer, dt) then 0.0 else timer + dt
  }

  /** The number of stars spawned over frames lasting `dts`, starting from timer `timer`. */
  function SpawnCount(timer: real, dts: seq<real>): nat
    decreases |dts|
  {
    if dts == [] then 0
    else (if SpawnDue(timer, dts[0]) then 1 else 0) + SpawnCount(NextTimer(timer, dts[0]), dts[1..])
  }

  /** The spawn timer after frames lasting `dts`. */
  function FinalTimer(timer: real, dts: seq<real>): real
    decreases |dts|
  {
    if dts == [] then timer else FinalTimer(NextTimer(timer, dts[0]), dts[1..])
  }

  /** The sum of the frame lengths `dts`. */
  function Total(dts: seq<real>): real
  {
    if dts == [] then 0.0 else dts[0] + Total(dts[1..])
  }

  /**
   * Stars spawn at most once per two seconds: every spawn consumed more
   * than 2000 ms of the elapsed time, and the timer holds what is left.
   */
  lemma {:induction false} SpawnRate(timer: real, dts: seq<real>)
    ensures SpawnInterval * SpawnCount(timer, dts) as real + FinalTimer(timer, dts) <= timer + Total(dts)
    ensures SpawnCount(timer, dts) > 0 ==>
      SpawnInterval * SpawnCount(timer, dts) as real + FinalTimer(timer, dts) < timer + Total(dts)
    decreases |dts|
  {
    if dts != [] {
      SpawnRate(NextTimer(timer, dts[0]), dts[1..]);
    }
  }

  /** The stars in play during a frame: a new star is appended when one is due. */
  function Pool(stars: seq<Star>, timer: real, dt: real, d: SpawnDraws, width: real): (r: seq<Star>)
    requires RandomDraws(d)
    ensures |r| == |stars| + (if SpawnDue(timer, dt) then 1 else 0)
    ensures r[..|stars|] == stars
    ensures SpawnDue(timer, dt) ==> r[|stars|] == NewStar(d, width) && WellFormed(r[|stars|])
  {
    if SpawnDue(timer, dt) then stars + [NewStar(d, width)] else stars
  }

  /** The stars of a frame after they have moved: the pool, each star moved by `dt`. */
  function Moved(stars: seq<Star>, timer: real, dt: real, d: SpawnDraws, width: real): seq<Star>
    requires RandomDraws(d)
  {
    AdvanceAll(Pool(stars, timer, dt, d, width), dt)
  }

  /** One step of the backward loop: the star at `i` is moved and kept or dropped in front of the later ones. */
  lemma LoopStep(pool: seq<Star>, i: int, dt: real, height: real)
    requires 0 <= i < |pool|
    ensures Survivors(AdvanceAll(pool[i..], dt), height) ==
      (if HasFallen(Advance(pool[i], dt), height) then [] else [Advance(pool[i], dt)]) + Survivors(AdvanceAll(pool[i + 1..], dt), height)
    ensures Fallen(AdvanceAll(pool[i..], dt), height) ==
      (if HasFallen(Advance(pool[i], dt), height) then 1 else 0) + Fallen(AdvanceAll(pool[i + 1..], dt), height)
  {
    assert pool[i..] == [pool[i]] + pool[i + 1..];
    assert pool[i..][1..] == pool[i + 1..];
  }

  /** How a list made of a prefix of `pool` and `later` looks after its element at `i` is dropped or replaced. */
  lemma SpliceAt<T>(s: seq<T>, pool: seq<T>, i: int, later: seq<T>, x: T)
    requires 0 <= i < |pool| && s == pool[..i + 1] + later
    ensures s[i] == pool[i]
    ensures s[..i] + s[i + 1..] == pool[..i] + later
    ensures s[i := x] == pool[..i] + [x] + later
  {
    assert s[..i] == pool[..i];
    assert s[i + 1..] == later;
  }

  /** Dropping the fallen stars keeps every remaining star well formed. */
  lemma {:induction false} SurvivorsWellFormed(stars: seq<Star>, height: real)
    requires forall k :: 0 <= k < |stars| ==> WellFormed(stars[k])
    ensures forall k :: 0 <= k < |Survivors(stars, height)| ==> WellFormed(Survivors(stars, height)[k])
  {
    if stars != [] {
      assert forall k :: 0 <= k < |stars[1..]| ==> stars[1..][k] == stars[k + 1];
      SurvivorsWellFormed(stars[1..], height);
    }
  }

  /**
   * The outcome of the backward loop as written: the stars left, the lives
   * left, and whether the loop was cut short by an exception.
   */
  datatype Swept = Swept(stars: seq<Star>, lives: int, thrown: bool)

  /** A result of the loop over a prefix, followed by the stars the loop has already kept after it. */
  function Join(r: Swept, later: seq<Star>): Swept
  {
    r.(stars := r.stars + later)
  }

  /**
   * The backward loop as written, from the last star to the first. A
   * fallen star is spliced out and costs a life, and then the lives counter
   * is shown as `"❤".repeat(lives)`, which throws once lives is negative:
   * the loop stops there, and the stars before it are neither moved nor
   * removed.
   */
  function Sweep(pool: seq<Star>, dt: real, height: real, lives: int): Swept
    decreases |pool|
  {
    if pool == [] then Swept([], lives, false)
    else
      var n := |pool| - 1;
      var moved := Advance(pool[n], dt);
      if HasFallen(moved, height) then
        if lives - 1 < 0 then Swept(pool[..n], lives - 1, true)
        else Sweep(pool[..n], dt, height, lives - 1)
      else
        var r := Sweep(pool[..n], dt, height, lives);
        r.(stars := r.stars + [moved])
  }

  /** The stars of a list moved by `dt`, the last one split off. */
  lemma AdvanceAllLast(pool: seq<Star>, dt: real)
    requires pool != []
    ensures AdvanceAll(pool, dt) == AdvanceAll(pool[..|pool| - 1], dt) + [Advance(pool[|pool| - 1], dt)]
  {
    var n := |pool| - 1;
    assert AdvanceAll(pool, dt)[..n] == AdvanceAll(pool[..n], dt);
  }

  /** The survivors and the fallen count of a moved list, its last star split off. */
  lemma SplitLast(pool: seq<Star>, dt: real, height: real)
    requires pool != []
    ensures var n, moved := |pool| - 1, Advance(pool[|pool| - 1], dt);
      Survivors(AdvanceAll(pool, dt), height) ==
        Survivors(AdvanceAll(pool[..n], dt), height) + (if HasFallen(moved, height) then [] else [moved]) &&
      Fallen(AdvanceAll(pool, dt), height) ==
        Fallen(AdvanceAll(pool[..n], dt), height) + (if HasFallen(moved, height) then 1 else 0)
  {
    var n, moved := |pool| - 1, Advance(pool[|pool| - 1], dt);
    AdvanceAllLast(pool, dt);
    SurvivorsAppend(AdvanceAll(pool[..n], dt), [moved], height);
    assert [moved][1..] == [];
  }

  /**
   * While the lives cover every star that falls, the loop as written never
   * throws, and it removes exactly the fallen stars at one life each.
   */
  lemma {:induction false} SweepWithoutThrow(pool: seq<Star>, dt: real, height: real, lives: int)
    requires Fallen(AdvanceAll(pool, dt), height) <= lives
    ensures Sweep(pool, dt, height, lives) ==
      Swept(Survivors(AdvanceAll(pool, dt), height), lives - Fallen(AdvanceAll(pool, dt), height), false)
    decreases |pool|
  {
    if pool != [] {
      var n := |pool| - 1;
      var moved := Advance(pool[n], dt);
      var front := AdvanceAll(pool[..n], dt);
      SplitLast(pool, dt, height);
      if HasFallen(moved, height) {
        SweepWithoutThrow(pool[..n], dt, height, lives - 1);
        assert Sweep(pool, dt, height, lives) == Sweep(pool[..n], dt, height, lives - 1);
      } else {
        SweepWithoutThrow(pool[..n], dt, height, lives);
        assert Sweep(pool, dt, height, lives) == Join(Sweep(pool[..n], dt, height, lives), [moved]);
      }
    }
  }

  /**
   * When more stars fall in one frame than there are lives left, the loop
   * as written throws, at the removal that takes lives to -1.
   */
  lemma {:induction false} SweepThrows(pool: seq<Star>, dt: real, height: real, lives: int)
    requires 0 <= lives < Fallen(AdvanceAll(pool, dt), height)
    ensures Sweep(pool, dt, height, lives).thrown
    ensures Sweep(pool, dt, height, lives).lives == -1
    decreases |pool|
  {
    var n := |pool| - 1;
    var moved := Advance(pool[n], dt);
    SplitLast(pool, dt, height);
    if HasFallen(moved, height) {
      if lives > 0 {
        SweepThrows(pool[..n], dt, height, lives - 1);
      }
    } else {
      SweepThrows(pool[..n], dt, height, lives);
    }
  }

  /** The loop as written keeps every star it leaves well formed. */
  lemma {:induction false} SweepWellFormed(pool: seq<Star>, dt: real, height: real, lives: int)
    requires forall k :: 0 <= k < |pool| ==> WellFormed(pool[k])
    ensures forall k :: 0 <= k < |Sweep(pool, dt, height, lives).stars| ==> WellFormed(Sweep(pool, dt, height, lives).stars[k])
    decreases |pool|
  {
    if pool != [] {
      var n := |pool| - 1;
      assert forall k :: 0 <= k < n ==> pool[..n][k] == pool[k];
      SweepWellFormed(pool[..n], dt, height, lives);
      SweepWellFormed(pool[..n], dt, height, lives - 1);
    }
  }

  /**
   * One step of the loop as written, at index `i`, followed by the stars
   * `later` it has already kept: the result over `pool[..i + 1]` in terms of
   * the result over `pool[..i]`.
   */
  lemma SweepStep(pool: seq<Star>, i: int, dt: real, height: real, lives: int, later: seq<Star>)
    requires 0 <= i < |pool|
    ensures var moved := Advance(pool[i], dt);
      Join(Sweep(pool[..i + 1], dt, height, lives), later) ==
        if HasFallen(moved, height) then
          if lives - 1 < 0 then Swept(pool[..i] + later, lives - 1, true)
          else Join(Sweep(pool[..i], dt, height, lives - 1), later)
        else Join(Sweep(pool[..i], dt, height, lives), [moved] + later)
  {
    assert pool[..i + 1][..i] == pool[..i];
    var r := Sweep(pool[..i], dt, height, lives);
    assert r.stars + [Advance(pool[i], dt)] + later == r.stars + ([Advance(pool[i], dt)] + later);
  }

  /**
   * With one life left, three stars that all fall in the same frame: the
   * loop as written removes the last two, throws at the second removal, and
   * leaves the first star unmoved with lives at -1. Every star has fallen,
   * yet one remains on the list, and the game-over screen never appears.
   */
  lemma ThreeFallWithOneLife(s0: Star, s1: Star, s2: Star, dt: real, height: real)
    requires HasFallen(Advance(s0, dt), height) && HasFallen(Advance(s1, dt), height) && HasFallen(Advance(s2, dt), height)
    ensures Sweep([s0, s1, s2], dt, height, 1) == Swept([s0], -1, true)
    ensures Survivors(AdvanceAll([s0, s1, s2], dt), height) == [] && Fallen(AdvanceAll([s0, s1, s2], dt), height) == 3
  {
    assert [s0, s1, s2][..2] == [s0, s1];
    assert [s0, s1][..1] == [s0];
    assert [s0][..0] == [];
    SplitLast([s0, s1, s2], dt, height);
    SplitLast([s0, s1], dt, height);
    SplitLast([s0], dt, height);
  }

  /** The list of the stars' answers, in the stars' order. */
  function Answers(stars: seq<Star>): seq<int>
  {
    seq(|stars|, k requires 0 <= k < |stars| => stars[k].ans)
  }

  /**
   * `stars.findIndex(s => s.ans === val)`: the first star whose answer is
   * the typed number, or -1 when none is, or when the input is not a
   * number (`None`, which equals nothing).
   */
  function FindAnswer(stars: seq<Star>, v: Option<int>): (k: int)
    ensures -1 <= k < |stars|
    ensures k == -1 <==> v.None? || forall j :: 0 <= j < |stars| ==> stars[j].ans != v.value
    ensures k >= 0 ==> v.Some? && stars[k].ans == v.value && forall j :: 0 <= j < k ==> stars[j].ans != v.value
  {
    match v
    case None => -1
    case Some(x) =>
      var answers := Answers(stars);
      assert |answers| == |stars| && forall j :: 0 <= j < |stars| ==> answers[j] == stars[j].ans;
      var k := FirstIndex(answers, x);
      assert k == -1 <==> forall j :: 0 <= j < |stars| ==> answers[j] != x;
      assert k >= 0 ==> forall j :: 0 <= j < k ==> answers[..k][j] == answers[j];
      k
  }

  /** Splicing out the star at `k` removes that one star and keeps the rest in order. */
  lemma RemoveOne(stars: seq<Star>, k: int)
    requires 0 <= k < |stars|
    ensures |stars[..k] + stars[k + 1..]| == |stars| - 1
    ensures multiset(stars[..k] + stars[k + 1..]) + multiset{stars[k]} == multiset(stars)
  {
    assert stars == stars[..k] + [stars[k]] + stars[k + 1..];
  }

  /** The state of the Falling Stars screen. */
  class StarsGame {
    var stars: seq<Star>
    var score: int
    /** Lives left; several stars falling in one frame can take it below 0. */
    var lives: int
    /** Milliseconds accumulated since the last spawn. */
    var spawnTimer: real
    /** The timestamp of the previous frame. */
    var lastTime: real
    var width: real
    var height: real
    /** A next frame is requested. */
    var running: bool
    /** The game-over screen is shown. */
    var over: bool

    ghost predicate Valid()
      reads this
    {
      spawnTimer <= SpawnInterval && 0 <= score && score % CatchReward == 0 &&
      (running ==> !over) &&
      forall k :: 0 <= k < |stars| ==> WellFormed(stars[k])
    }

    /** The state at page load: no game on screen yet. */
    constructor ()
      ensures Valid() && !running && !over
      ensures stars == [] && score == 0 && lives == StartLives && spawnTimer == 0.0 && lastTime == 0.0
    {
      stars, score, lives := [], 0, StartLives;
      spawnTimer, lastTime := 0.0, 0.0;
      width, height := 0.0, 0.0;
      running, over := false, false;
    }

    /** Starts a game at time `now` on a canvas of the given size: no stars, score 0, three lives, no game-over screen. */
    method Start(now: real, w: real, h: real)
      modifies this
      ensures Valid() && running && !over
      ensures stars == [] && score == 0 && lives == StartLives
      ensures spawnTimer == 0.0 && lastTime == now && width == w && height == h
    {
      stars, score, lives := [], 0, StartLives;
      width, height := w, h;
      lastTime, spawnTimer := now, 0.0;
      running, over := true, false;
    }

    /** Appends a new star. */
    method SpawnStar(d: SpawnDraws)
      requires Valid() && RandomDraws(d)
      modifies this`stars
      ensures Valid()
      ensures stars == old(stars) + [NewStar(d, width)]
    {
      stars := stars + [NewStar(d, width)];
    }

    /**
     * One frame's update: a star spawns when due; then, from the last star
     * to the first, each star moves down and is removed, at the cost of a
     * life, once it is past the bottom edge.
     */
    method UpdateStars(dt: real, d: SpawnDraws)
      requires Valid() && RandomDraws(d)
      modifies this`stars, this`lives, this`spawnTimer
      ensures Valid()
      ensures spawnTimer == NextTimer(old(spawnTimer), dt)
      ensures stars == Survivors(Moved(old(stars), old(spawnTimer), dt, d, width), height)
      ensures lives == old(lives) - Fallen(Moved(old(stars), old(spawnTimer), dt, d, width), height)
      ensures |stars| == |old(stars)| + (if SpawnDue(old(spawnTimer), dt) then 1 else 0) - (old(lives) - lives)
    {
      ghost var pool := Pool(stars, spawnTimer, dt, d, width);
      var timer := spawnTimer + dt;
      if timer > SpawnInterval {
        SpawnStar(d);
        timer := 0.0;
      }
      assert stars == pool;
      spawnTimer := timer;
      MoveStars(dt);
    }

    /** The backward loop of a frame: each star moves down; one past the bottom edge is removed and costs a life. */
    method MoveStars(dt: real)
      requires Valid()
      modifies this`stars, this`lives
      ensures Valid()
      ensures stars == Survivors(AdvanceAll(old(stars), dt), height)
      ensures lives == old(lives) - Fallen(AdvanceAll(old(stars), dt), height)
      ensures |stars| == |old(stars)| - (old(lives) - lives)
    {
      var pool, lives0 := stars, lives;
      assert forall k :: 0 <= k < |pool| ==> WellFormed(pool[k]);
      var ss, lost := pool, 0;
      var i := |ss|;
      assert pool[..i] == pool && pool[i..] == [];
      while i > 0
        invariant 0 <= i <= |pool|
        invariant ss == pool[..i] + Survivors(AdvanceAll(pool[i..], dt), height)
        invariant lost == Fallen(AdvanceAll(pool[i..], dt), height)
        decreases i
      {
        i := i - 1;
        LoopStep(pool, i, dt, height);
        ghost var later := Survivors(AdvanceAll(pool[i + 1..], dt), height);
        var moved := Advance(ss[i], dt);
        SpliceAt(ss, pool, i, later, moved);
        if moved.y > height {
          ss := ss[..i] + ss[i + 1..];
          lost := lost + 1;
        } else {
          ss := ss[i := moved];
        }
      }
      assert pool[0..] == pool && pool[..0] == [];
      assert ss == Survivors(AdvanceAll(pool, dt), height);
      var adv := AdvanceAll(pool, dt);
      forall k | 0 <= k < |adv| ensures WellFormed(adv[k]) {
        assert adv[k] == Advance(pool[k], dt) && WellFormed(pool[k]);
      }
      SurvivorsWellFormed(adv, height);
      SurvivorsFallen(adv, height);
      stars, lives := ss, lives0 - lost;
    }

    /**
     * An animation frame at `timestamp`, with the lives display never asked
     * for a negative count: the elapsed time drives the update, every fallen
     * star is removed, and the next frame is requested while lives remain;
     * otherwise the game-over screen is shown.
     */
    method Frame(timestamp: real, d: SpawnDraws)
      requires Valid() && running && RandomDraws(d)
      modifies this`stars, this`lives, this`spawnTimer, this`lastTime, this`running, this`over
      ensures Valid()
      ensures lastTime == timestamp
      ensures spawnTimer == NextTimer(old(spawnTimer), timestamp - old(lastTime))
      ensures stars == Survivors(Moved(old(stars), old(spawnTimer), timestamp - old(lastTime), d, width), height)
      ensures lives == old(lives) - Fallen(Moved(old(stars), old(spawnTimer), timestamp - old(lastTime), d, width), height)
      ensures running <==> lives > 0
      ensures over <==> lives <= 0
    {
      var dt := timestamp - lastTime;
      lastTime := timestamp;
      UpdateStars(dt, d);
      running := lives > 0;
      over := !running;
    }

    /**
     * The backward loop as written: each star moves down; one past the
     * bottom edge is removed and costs a life, and the lives display then
     * throws if lives went negative, which ends the loop on the spot.
     */
    method MoveStarsAsWritten(dt: real) returns (thrown: bool)
      requires Valid()
      modifies this`stars, this`lives
      ensures Valid()
      ensures Sweep(old(stars), dt, height, old(lives)) == Swept(stars, lives, thrown)
    {
      var pool, lives0 := stars, lives;
      var ss, lv := pool, lives0;
      var i := |pool|;
      thrown := false;
      ghost var later: seq<Star> := [];
      assert pool[..i] == pool && pool[..i] + later == pool;
      assert Sweep(pool, dt, height, lives0).stars + later == Sweep(pool, dt, height, lives0).stars;
      while i > 0 && !thrown
        invariant 0 <= i <= |pool|
        invariant !thrown ==> ss == pool[..i] + later
        invariant !thrown ==> Sweep(pool, dt, height, lives0) == Join(Sweep(pool[..i], dt, height, lv), later)
        invariant thrown ==> Sweep(pool, dt, height, lives0) == Swept(ss, lv, true)
        decreases i
      {
        i := i - 1;
        SweepStep(pool, i, dt, height, lv, later);
        var moved := Advance(ss[i], dt);
        SpliceAt(ss, pool, i, later, moved);
        if moved.y > height {
          ss := ss[..i] + ss[i + 1..];
          lv := lv - 1;
          if lv < 0 {
            thrown := true;
          }
        } else {
          ss := ss[i := moved];
          later := [moved] + later;
          assert ss == pool[..i] + later;
        }
      }
      if !thrown {
        assert pool[..0] == [];
      }
      assert Sweep(pool, dt, height, lives0) == Swept(ss, lv, thrown);
      SweepWellFormed(pool, dt, height, lives0);
      stars, lives := ss, lv;
    }

    /** One frame's update as written: the spawn as in `UpdateStars`, then the loop as written. */
    method UpdateStarsAsWritten(dt: real, d: SpawnDraws) returns (thrown: bool)
      requires Valid() && RandomDraws(d)
      modifies this`stars, this`lives, this`spawnTimer
      ensures Valid()
      ensures spawnTimer == NextTimer(old(spawnTimer), dt)
      ensures Sweep(Pool(old(stars), old(spawnTimer), dt, d, width), dt, height, old(lives)) == Swept(stars, lives, thrown)
    {
      var timer := spawnTimer + dt;
      if timer > SpawnInterval {
        SpawnStar(d);
        timer := 0.0;
      }
      spawnTimer := timer;
      thrown := MoveStarsAsWritten(dt);
    }

    /**
     * An animation frame as written. When the loop throws, the frame ends
     * there: no next frame is requested and the game-over screen is not
     * shown, so the game stays frozen on screen.
     */
    method FrameAsWritten(timestamp: real, d: SpawnDraws) returns (thrown: bool)
      requires Valid() && running && RandomDraws(d)
      modifies this`stars, this`lives, this`spawnTimer, this`lastTime, this`running, this`over
      ensures Valid()
      ensures lastTime == timestamp
      ensures spawnTimer == NextTimer(old(spawnTimer), timestamp - old(lastTime))
      ensures Sweep(Pool(old(stars), old(spawnTimer), timestamp - old(lastTime), d, width), timestamp - old(lastTime), height, old(lives))
        == Swept(stars, lives, thrown)
      ensures !thrown ==> (running <==> lives > 0) && (over <==> lives <= 0)
      ensures thrown ==> !running && !over
    {
      var dt := timestamp - lastTime;
      lastTime := timestamp;
      thrown := UpdateStarsAsWritten(dt, d);
      if thrown {
        running := false;
      } else {
        running := lives > 0;
        over := !running;
      }
    }

    /**
     * The typed number is submitted: the first star with that answer, if
     * any, is removed and scores 10; otherwise nothing changes.
     */
    method Submit(v: Option<int>) returns (hit: bool)
      requires Valid()
      modifies this`stars, this`score
      ensures Valid()
      ensures hit <==> v.Some? && v.value in Answers(old(stars))
      ensures hit ==> var k := FindAnswer(old(stars), v);
        stars == old(stars)[..k] + old(stars)[k + 1..] && score == old(score) + CatchReward
      ensures !hit ==> stars == old(stars) && score == old(score)
    {
      var idx := FindAnswer(stars, v);
      hit := idx != -1;
      if hit {
        stars := stars[..idx] + stars[idx + 1..];
        score := score + CatchReward;
        forall k | 0 <= k < |stars| ensures WellFormed(stars[k]) {
          if k < idx {
            assert stars[k] == old(stars)[k];
          } else {
            assert stars[k] == old(stars)[k + 1];
          }
        }
      }
    }
  }

  /** The first frame at 2100 ms of a game on a 400 x 300 canvas spawns one star, which is on the canvas after moving. */
  lemma FirstFrame(d: SpawnDraws)
    requires RandomDraws(d)
    ensures Survivors(Moved([], 0.0, 2100.0, d, 400.0), 300.0) == [Advance(NewStar(d, 400.0), 2100.0)]
    ensures Fallen(Moved([], 0.0, 2100.0, d, 400.0), 300.0) == 0
  {
    var star := NewStar(d, 400.0);
    var moved := Advance(star, 2100.0);
    assert Pool([], 0.0, 2100.0, d, 400.0) == [star];
    assert AdvanceAll([star], 2100.0) == [moved];
    assert moved.y == SpawnY + star.speed * (2100.0 / FrameMs);
    assert !HasFallen(moved, 300.0);
    NoneFallen([moved], 300.0);
  }

  /**
   * A game started at time 0 on a 400 x 300 canvas: the frame at 2100 ms
   * spawns the first star and moves it onto the canvas, where typing its
   * product catches it. Nothing has fallen, so all three lives remain.
   */
  method CatchFirstStar(d: SpawnDraws) returns (g: StarsGame)
    requires RandomDraws(d)
    ensures g.score == CatchReward && g.lives == StartLives && g.stars == [] && g.running
  {
    g := new StarsGame();
    g.Start(0.0, 400.0, 300.0);
    g.Frame(2100.0, d);
    FirstFrame(d);
    var caught := Advance(NewStar(d, 400.0), 2100.0);
    assert g.stars == [caught];
    var hit := g.Submit(Some(caught.ans));
    assert Answers([caught])[0] == caught.ans;
  }
}
