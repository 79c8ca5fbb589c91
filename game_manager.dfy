/**
 * The match state machine of Network/GameManager.cs: Ready -> Play on the
 * first SpawnPlayer, ScoreTail ticking while in Play, and the clamped
 * level-up. Spawning the player's network object is done by code outside
 * this model; its result is a parameter. The input delegate handed back
 * through `ref` is not modelled.
 */
module GameFlow {
  import opened Wrappers
  import BulletLifecycle
  import opened CSharpInt

  datatype GameState = Ready | Play | GameOver | StateCount

  const LevelUpInterval: real := 30.0
  const DifficultyPlus: real := 0.3
  const MinLevel: real := 1.0
  const MaxLevel: real := 5.0

  /** `x++` on a C# int in an unchecked context: int.MaxValue wraps to int.MinValue. */
  function Increment(x: int32): (r: int32)
    ensures (r as int - x as int - 1) % 0x1_0000_0000 == 0
    ensures x < MaxInt32 ==> r == x + 1
    ensures x == MaxInt32 ==> r == MinInt32
  {
    Wrap(x + 1)
  }

  /** Mathf.Clamp(value, min, max). */
  function Clamp(value: real, min: real, max: real): (r: real)
    requires min <= max
    ensures min <= r <= max
    ensures min <= value <= max ==> r == value
    ensures value < min ==> r == min
    ensures value > max ==> r == max
  {
    if value < min then min else if value > max then max else value
  }

  /** A spawned player's NetworkObject, by identity. */
  type PlayerRef = nat

  /** The fields of GameManager the state machine reads and writes. */
  datatype GameSnapshot = GameSnapshot(
    state: GameState,
    level: real,
    levelUpTimeStamp: real,
    scoreTail: int32,
    player: Option<PlayerRef>,
    readyTextActive: bool)

  /** The field initialisers: Ready, level 1, timestamp 0, score 0, no player, ready text shown. */
  const Initial: GameSnapshot := GameSnapshot(Ready, 1.0, 0.0, 0, None, true)

  /** The level after one level-up. */
  function NextLevel(level: real): real
  {
    Clamp(level + DifficultyPlus, MinLevel, MaxLevel)
  }

  /** GamePlay: one network tick. */
  function GamePlayed(s: GameSnapshot): GameSnapshot
  {
    match s.state
    case Play =>
      var t := if s.levelUpTimeStamp > LevelUpInterval
               then s.(levelUpTimeStamp := 0.0, level := NextLevel(s.level))
               else s;
      t.(scoreTail := Increment(t.scoreTail))
    case _ => s
  }

  /** What SpawnPlayer returned and which patterns GameStart started. */
  datatype SpawnOutcome = SpawnOutcome(after: GameSnapshot, returned: Option<PlayerRef>, patternsStarted: seq<BulletLifecycle.BulletPattern>)

  /** GameStart: Play, hide the ready text, start Spread then Winder. */
  function Started(s: GameSnapshot): SpawnOutcome
  {
    SpawnOutcome(s.(state := Play, readyTextActive := false), s.player,
                 [BulletLifecycle.Spread, BulletLifecycle.Winder])
  }

  /** SpawnPlayer, given the object the spawn call would create. */
  function SpawnedPlayer(s: GameSnapshot, spawned: PlayerRef): SpawnOutcome
  {
    if s.state == Ready && s.player.None? then Started(s.(player := Some(spawned)))
    else SpawnOutcome(s, s.player, [])
  }

  /** A tick changes nothing outside Play; in Play the score advances by exactly one. */
  lemma GamePlayScoresOnlyInPlay(s: GameSnapshot)
    ensures s.state != Play ==> GamePlayed(s) == s
    ensures s.state == Play ==>
      && GamePlayed(s).scoreTail == Increment(s.scoreTail)
      && GamePlayed(s).(scoreTail := s.scoreTail, level := s.level, levelUpTimeStamp := s.levelUpTimeStamp) == s
  {
  }

  /** A level-up happens only past the interval, resets the timestamp and adds 0.3 up to 5. */
  lemma LevelUpRule(s: GameSnapshot)
    requires MinLevel <= s.level <= MaxLevel
    ensures var t := GamePlayed(s);
      && (t.level != s.level || t.levelUpTimeStamp != s.levelUpTimeStamp
          <==> s.state == Play && s.levelUpTimeStamp > LevelUpInterval)
      && (s.state == Play && s.levelUpTimeStamp > LevelUpInterval ==>
            t.levelUpTimeStamp == 0.0 && t.level == if s.level + 0.3 > 5.0 then 5.0 else s.level + 0.3)
  {
  }

  /** `n` ticks of GamePlay. */
  function Ticks(s: GameSnapshot, n: nat): GameSnapshot
    decreases n
  {
    if n == 0 then s else Ticks(GamePlayed(s), n - 1)
  }

  /** The level stays in [1,5] and never decreases, however many ticks run. */
  lemma {:induction false} LevelBoundedAndMonotone(s: GameSnapshot, n: nat)
    requires MinLevel <= s.level <= MaxLevel
    ensures s.level <= Ticks(s, n).level <= MaxLevel
    decreases n
  {
    if n > 0 {
      LevelBoundedAndMonotone(GamePlayed(s), n - 1);
    }
  }

  /** Nothing in GamePlay advances the timestamp: it only ever resets it to 0. */
  lemma {:induction false} TimestampNeverAdvances(s: GameSnapshot, n: nat)
    ensures Ticks(s, n).levelUpTimeStamp == s.levelUpTimeStamp || Ticks(s, n).levelUpTimeStamp == 0.0
    decreases n
  {
    if n > 0 {
      TimestampNeverAdvances(GamePlayed(s), n - 1);
    }
  }

  /** The two things that happen to a GameManager. */
  datatype Event = Tick | Spawn(spawned: PlayerRef)

  function Replay(s: GameSnapshot, events: seq<Event>): GameSnapshot
    decreases |events|
  {
    if events == [] then s
    else
      var t := match events[0]
               case Tick => GamePlayed(s)
               case Spawn(p) => SpawnedPlayer(s, p).after;
      Replay(t, events[1..])
  }

  predicate Reachable(s: GameSnapshot)
  {
    && s.levelUpTimeStamp == 0.0 && s.level == 1.0
    && (s.state == Ready || s.state == Play)
    && (s.state == Play <==> s.player.Some?)
    && (s.readyTextActive <==> s.state == Ready)
  }

  /**
   * From the initial fields, any sequence of ticks and spawn calls keeps the
   * level at 1 (the level-up branch never fires), never reaches GameOver,
   * and is in Play exactly when a player exists.
   */
  lemma {:induction false} ReplayFromInitial(events: seq<Event>)
    ensures Reachable(Replay(Initial, events))
  {
    ReplayKeepsReachable(Initial, events);
  }

  lemma {:induction false} ReplayKeepsReachable(s: GameSnapshot, events: seq<Event>)
    requires Reachable(s)
    ensures Reachable(Replay(s, events))
    decreases |events|
  {
    if events != [] {
      var t := match events[0]
               case Tick => GamePlayed(s)
               case Spawn(p) => SpawnedPlayer(s, p).after;
      assert Reachable(t);
      ReplayKeepsReachable(t, events[1..]);
    }
  }

  /** Only the first spawn in Ready creates a player; every other call returns the current one and changes nothing. */
  lemma SpawnOnlyOnce(s: GameSnapshot, spawned: PlayerRef)
    ensures var o := SpawnedPlayer(s, spawned);
      && (s.state == Ready && s.player.None? ==>
            o.after.state == Play && o.after.player == Some(spawned) && o.returned == Some(spawned)
            && !o.after.readyTextActive && o.patternsStarted == [BulletLifecycle.Spread, BulletLifecycle.Winder])
      && (!(s.state == Ready && s.player.None?) ==> o.after == s && o.returned == s.player && o.patternsStarted == [])
      && SpawnedPlayer(o.after, spawned).after == o.after
  {
  }

  class GameManager {
    var state: GameState
    var gameLevel: real
    var levelUpTimeStamp: real
    var scoreTail: int32
    var myPlayer: Option<PlayerRef>
    var readyTextActive: bool

    function Snapshot(): GameSnapshot
      reads this
    {
      GameSnapshot(state, gameLevel, levelUpTimeStamp, scoreTail, myPlayer, readyTextActive)
    }

    constructor()
      ensures Snapshot() == Initial
    {
      state, gameLevel, levelUpTimeStamp, scoreTail := Ready, 1.0, 0.0, 0;
      myPlayer, readyTextActive := None, true;
    }

    method GamePlay()
      modifies this
      ensures Snapshot() == GamePlayed(old(Snapshot()))
    {
      match state {
        case Ready =>
        case Play =>
          if levelUpTimeStamp > LevelUpInterval {
            levelUpTimeStamp := 0.0;
            RpcUpdateGameLevel(Clamp(gameLevel + DifficultyPlus, MinLevel, MaxLevel));
          }
          scoreTail := Increment(scoreTail);
        case GameOver =>
        case StateCount =>
      }
    }

    /** `spawned` is what the spawn call returns when it is made. */
    method SpawnPlayer(spawned: PlayerRef) returns (player: Option<PlayerRef>, patternsStarted: seq<BulletLifecycle.BulletPattern>)
      modifies this
      ensures SpawnOutcome(Snapshot(), player, patternsStarted) == SpawnedPlayer(old(Snapshot()), spawned)
    {
      patternsStarted := [];
      if state == Ready && myPlayer.None? {
        myPlayer := Some(spawned);
        patternsStarted := GameStart();
        return myPlayer, patternsStarted;
      }
      return myPlayer, patternsStarted;
    }

    method GameStart() returns (patternsStarted: seq<BulletLifecycle.BulletPattern>)
      modifies this
      ensures SpawnOutcome(Snapshot(), myPlayer, patternsStarted) == Started(old(Snapshot()))
    {
      state := Play;
      readyTextActive := false;
      patternsStarted := [BulletLifecycle.Spread];
      patternsStarted := patternsStarted + [BulletLifecycle.Winder];
    }

    method RpcUpdateGameLevel(value: real)
      modifies this
      ensures Snapshot() == old(Snapshot()).(level := value)
    {
      gameLevel := value;
    }
  }
}
