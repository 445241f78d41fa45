/** The `games` table that both MsSQL stores keep: one row per (game_id, save_id),
    each holding a serialized game, a player count, a status and a creation time.
    Every SQL statement of the stores is a function on this table here. */
module Snapshots {
  import opened Optional

  type GameId = string
  type ParticipantId = string

  datatype Status = Running | Finished

  /** The fields of a serialized game the stores look into; `body` stands for the rest of it. */
  datatype SerializedGame = SerializedGame(
    id: GameId,
    playerIds: seq<ParticipantId>,
    spectatorId: Option<ParticipantId>,
    lastSaveId: int,
    body: string)

  /** The `game` column: either text that JSON.parse accepts, or text it rejects. */
  datatype Blob = Json(game: SerializedGame) | Malformed(text: string)

  /** One row of `games`; `createdTime` is in seconds. */
  datatype Row = Row(game: Blob, players: int, status: Status, createdTime: int)

  type Key = (GameId, int)
  type Table = map<Key, Row>

  /** `DATEADD(DAY, -d, t)` on times counted in seconds. */
  const SecondsPerDay: int := 86400

  /** The in-memory game the stores save: its identity, participants, undo option,
      the rest of its state (`body`) and the save id counter it carries. */
  class Game {
    const id: GameId
    const playerIds: seq<ParticipantId>
    const spectatorId: Option<ParticipantId>
    const undoOption: bool
    var body: string
    var lastSaveId: int

    constructor (id: GameId, playerIds: seq<ParticipantId>, spectatorId: Option<ParticipantId>,
                 undoOption: bool, body: string)
      ensures this.id == id && this.playerIds == playerIds && this.spectatorId == spectatorId
      ensures this.undoOption == undoOption && this.body == body && lastSaveId == 0
    {
      this.id := id;
      this.playerIds := playerIds;
      this.spectatorId := spectatorId;
      this.undoOption := undoOption;
      this.body := body;
      lastSaveId := 0;
    }

    /** `game.toJSON()`: the serialized copy written to the `game` column. */
    function ToJson(): SerializedGame
      reads this
    {
      SerializedGame(id, playerIds, spectatorId, lastSaveId, body)
    }
  }

  // ---------------------------------------------------------------------------
  // Save ids of one game

  /** `SELECT DISTINCT save_id FROM games WHERE game_id = g`, as a set. */
  function SaveIds(t: Table, g: GameId): (ids: set<int>)
    ensures forall s :: s in ids <==> (g, s) in t
  {
    set k | k in t && k.0 == g :: k.1
  }

  /** Some element of a non-empty set. */
  lemma Pick<T>(s: set<T>) returns (y: T)
    requires s != {}
    ensures y in s
  {
    if forall z :: z !in s {
      assert false;
    }
    y :| y in s;
  }

  /** The largest element of a non-empty set of integers. */
  lemma {:induction false} Maximum(s: set<int>) returns (m: int)
    requires s != {}
    ensures m in s && forall x :: x in s ==> x <= m
    decreases |s|
  {
    var y := Pick(s);
    var r := s - {y};
    if r == {} {
      m := y;
      forall x | x in s ensures x <= m { assert x !in r; }
    } else {
      var mr := Maximum(r);
      m := if y > mr then y else mr;
      forall x | x in s ensures x <= m { if x != y { assert x in r; } }
    }
  }

  lemma HasMaximum(s: set<int>)
    requires s != {}
    ensures exists m :: m in s && forall x :: x in s ==> x <= m
  {
    var m := Maximum(s);
  }

  /** `SELECT MAX(save_id) FROM games WHERE game_id = g`; NULL (None) when the game has no row. */
  function MaxSaveId(t: Table, g: GameId): (r: Option<int>)
    ensures r.None? <==> SaveIds(t, g) == {}
    ensures r.Some? ==> (g, r.value) in t && forall s :: s in SaveIds(t, g) ==> s <= r.value
  {
    var ids := SaveIds(t, g);
    if ids == {} then None
    else
      HasMaximum(ids);
      var m :| m in ids && forall x :: x in ids ==> x <= m;
      Some(m)
  }

  // ---------------------------------------------------------------------------
  // The MERGE upsert

  /** `MERGE games ... ON game_id AND save_id`: when no row has the key, insert one with the given
      blob and player count, the default status `running` and creation time `now`; otherwise
      replace the `game` column of that row and nothing else. */
  function Upsert(t: Table, g: GameId, saveId: int, blob: Blob, players: int, now: int): Table
  {
    var k := (g, saveId);
    if k in t then t[k := t[k].(game := blob)] else t[k := Row(blob, players, Running, now)]
  }

  /** The upsert writes exactly one key: that row afterwards holds the new blob, a new row is a
      running one stamped `now`, an existing row keeps its players, status and creation time,
      and every other row and key is as before. */
  lemma UpsertEffect(t: Table, g: GameId, saveId: int, blob: Blob, players: int, now: int)
    ensures var r := Upsert(t, g, saveId, blob, players, now);
      && r.Keys == t.Keys + {(g, saveId)}
      && r[(g, saveId)].game == blob
      && ((g, saveId) !in t ==> r[(g, saveId)] == Row(blob, players, Running, now))
      && ((g, saveId) in t ==>
            && r[(g, saveId)].players == t[(g, saveId)].players
            && r[(g, saveId)].status == t[(g, saveId)].status
            && r[(g, saveId)].createdTime == t[(g, saveId)].createdTime)
      && (forall k :: k in t && k != (g, saveId) ==> r[k] == t[k])
  {
  }

  /** Two writers that read the same save id both upsert the same key: one row remains, carrying
      the second writer's blob and the first writer's insert (the race the stores leave open). */
  lemma UpsertSameKeyTwice(t: Table, g: GameId, v: int, b1: Blob, b2: Blob, p1: int, p2: int, t1: int, t2: int)
    ensures Upsert(Upsert(t, g, v, b1, p1, t1), g, v, b2, p2, t2) == Upsert(t, g, v, b2, p1, t1)
  {
  }

  // ---------------------------------------------------------------------------
  // Undo: `SELECT TOP (n) ... ORDER BY save_id DESC` followed by DELETE

  function Above(ids: set<int>, x: int): set<int>
  {
    set y | y in ids && y > x
  }

  /** The save ids that the top-n query picks: those with fewer than n save ids above them. */
  function TopSaveIds(ids: set<int>, n: int): (top: set<int>)
    ensures top <= ids
  {
    set x | x in ids && |Above(ids, x)| < n
  }

  lemma ProperSubsetSmaller(a: set<int>, b: set<int>)
    requires a < b
    ensures |a| < |b|
  {
    assert b == a + (b - a);
    assert b - a != {};
  }

  /** Every picked save id is above every one that is not picked. */
  lemma TopSaveIdsAreHighest(ids: set<int>, n: int, x: int, y: int)
    requires x in TopSaveIds(ids, n) && y in ids - TopSaveIds(ids, n)
    ensures y < x
  {
    if y >= x {
      assert y != x;
      assert Above(ids, y) < Above(ids, x) by {
        assert y in Above(ids, x) && y !in Above(ids, y);
      }
      ProperSubsetSmaller(Above(ids, y), Above(ids, x));
    }
  }

  /** Above the maximum m, each other id has m and the ids above it in the rest. */
  lemma AboveWithoutMax(ids: set<int>, m: int, x: int)
    requires m in ids && (forall y :: y in ids ==> y <= m) && x in ids - {m}
    ensures |Above(ids, x)| == |Above(ids - {m}, x)| + 1
  {
    assert Above(ids, x) == Above(ids - {m}, x) + {m};
  }

  /** Picking n from a set picks its maximum and n - 1 from the rest. */
  lemma TopSaveIdsSplit(ids: set<int>, n: int, m: int)
    requires n > 0 && m in ids && forall y :: y in ids ==> y <= m
    ensures TopSaveIds(ids, n) == TopSaveIds(ids - {m}, n - 1) + {m}
  {
    var rest := ids - {m};
    assert Above(ids, m) == {};
    forall x | x in rest
      ensures x in TopSaveIds(ids, n) <==> x in TopSaveIds(rest, n - 1)
    {
      AboveWithoutMax(ids, m, x);
    }
  }

  /** The top-n query picks min(n, |ids|) save ids, and none when n <= 0. */
  lemma {:induction false} TopSaveIdsSize(ids: set<int>, n: int)
    ensures |TopSaveIds(ids, n)| == if n <= 0 then 0 else if n < |ids| then n else |ids|
    decreases |ids|
  {
    if n <= 0 {
      assert TopSaveIds(ids, n) == {};
    } else if ids == {} {
      assert TopSaveIds(ids, n) == {};
    } else {
      var m := MaxOf(ids);
      TopSaveIdsSplit(ids, n, m);
      TopSaveIdsSize(ids - {m}, n - 1);
      assert m !in TopSaveIds(ids - {m}, n - 1);
    }
  }

  function MaxOf(s: set<int>): (m: int)
    requires s != {}
    ensures m in s && forall x :: x in s ==> x <= m
  {
    HasMaximum(s);
    var m :| m in s && forall x :: x in s ==> x <= m;
    m
  }

  /** A count at least the number of saves picks them all, save 0 included. */
  lemma TopSaveIdsAll(ids: set<int>, n: int)
    requires n >= |ids|
    ensures TopSaveIds(ids, n) == ids
  {
    TopSaveIdsSize(ids, n);
    if TopSaveIds(ids, n) != ids {
      ProperSubsetSmaller(TopSaveIds(ids, n), ids);
    }
  }

  /** The rows of game g left by deleting its n highest saves. */
  function DeleteTop(t: Table, g: GameId, n: int): Table
  {
    var top := TopSaveIds(SaveIds(t, g), n);
    map k | k in t && !(k.0 == g && k.1 in top) :: t[k]
  }

  /** The undo keeps a row unchanged or drops it, and drops only rows of game g whose save id
      the top-n query picked. */
  lemma DeleteTopFrame(t: Table, g: GameId, n: int)
    ensures forall k :: k in DeleteTop(t, g, n) ==> k in t && DeleteTop(t, g, n)[k] == t[k]
    ensures forall k :: k in t && k.0 != g ==> k in DeleteTop(t, g, n)
    ensures SaveIds(DeleteTop(t, g, n), g) == SaveIds(t, g) - TopSaveIds(SaveIds(t, g), n)
  {
    var r := DeleteTop(t, g, n);
    var top := TopSaveIds(SaveIds(t, g), n);
    forall s ensures s in SaveIds(r, g) <==> s in SaveIds(t, g) - top {
      assert (g, s) in r <==> (g, s) in t && s !in top;
    }
  }

  /** Undo of n > 0 saves removes exactly the min(n, count) highest save ids of the game, and
      all of them, save 0 included, once n reaches the count. */
  lemma DeleteTopRemovesHighest(t: Table, g: GameId, n: int)
    requires n > 0
    ensures var before, after := SaveIds(t, g), SaveIds(DeleteTop(t, g, n), g);
      && after <= before
      && |before - after| == (if n < |before| then n else |before|)
      && (forall x, y :: x in before - after && y in after ==> y < x)
      && (n >= |before| ==> after == {})
  {
    var before, after := SaveIds(t, g), SaveIds(DeleteTop(t, g, n), g);
    var top := TopSaveIds(before, n);
    DeleteTopFrame(t, g, n);
    assert before - after == top;
    TopSaveIdsSize(before, n);
    forall x, y | x in before - after && y in after
      ensures y < x
    {
      TopSaveIdsAreHighest(before, n, x, y);
    }
    if n >= |before| {
      TopSaveIdsAll(before, n);
    }
  }

  // ---------------------------------------------------------------------------
  // Finishing a game

  /** `DELETE FROM games WHERE game_id = g AND save_id < max AND save_id > 0`; with a NULL max
      the comparison is never true and nothing is deleted. */
  function DeleteIntermediate(t: Table, g: GameId, max: Option<int>): Table
  {
    map k | k in t && !(k.0 == g && max.Some? && 0 < k.1 < max.value) :: t[k]
  }

  /** `UPDATE games SET status = 'finished' WHERE game_id = g`. */
  function MarkStatusFinished(t: Table, g: GameId): Table
  {
    map k | k in t :: if k.0 == g then t[k].(status := Finished) else t[k]
  }

  /** `DELETE FROM games WHERE created_time < cutoff`, whatever the status. */
  function PurgeOlderThan(t: Table, cutoff: int): Table
  {
    map k | k in t && t[k].createdTime >= cutoff :: t[k]
  }

  /** Cleaning a game at its current maximum keeps save 0 (and any lower id) and the maximum,
      drops every save strictly in between, marks each remaining row of the game finished, and
      leaves every other game alone; when the game had save 0 and a later save, exactly those
      two remain. */
  lemma CleanKeepsSeedAndLast(t: Table, g: GameId)
    ensures var after := MarkStatusFinished(DeleteIntermediate(t, g, MaxSaveId(t, g)), g);
      && SaveIds(after, g) == set s | s in SaveIds(t, g) && (s <= 0 || Some(s) == MaxSaveId(t, g))
      && (forall s :: s in SaveIds(after, g) ==> after[(g, s)].status == Finished)
      && (forall s :: s in SaveIds(after, g) ==> after[(g, s)].game == t[(g, s)].game)
      && (forall k :: k in t && k.0 != g ==> k in after && after[k] == t[k])
    ensures 0 in SaveIds(t, g) && (forall s :: s in SaveIds(t, g) ==> s >= 0) && |SaveIds(t, g)| >= 2 ==>
      var after := MarkStatusFinished(DeleteIntermediate(t, g, MaxSaveId(t, g)), g);
      SaveIds(after, g) == {0, MaxSaveId(t, g).value} && MaxSaveId(t, g).value > 0
  {
    var ids := SaveIds(t, g);
    if 0 in ids {
      var m := MaxSaveId(t, g).value;
      OnlyZeroBelowZero(ids, m);
    }
  }

  lemma OnlyZeroBelowZero(ids: set<int>, m: int)
    ensures (forall s :: s in ids ==> 0 <= s <= m) && m <= 0 ==> |ids| <= 1
  {
    if (forall s :: s in ids ==> 0 <= s <= m) && m <= 0 {
      assert ids <= {0};
      if ids != {0} {
        assert ids == {};
      }
    }
  }

  /** The delete and the status update of a clean touch disjoint columns, so the order in
      which the driver runs them does not matter. */
  lemma CleanStepsCommute(t: Table, g: GameId, max: Option<int>)
    ensures MarkStatusFinished(DeleteIntermediate(t, g, max), g)
         == DeleteIntermediate(MarkStatusFinished(t, g), g, max)
  {
  }
}
