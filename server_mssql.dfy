/** The current SQL Server store of src/server/database/MsSQL.ts. Each method runs one or a few
    SQL statements whose text fixes its effect; here the tables are fields of the store:
    `games` (the snapshot table), `participants` (the ledger of (game_id, participant) pairs),
    `completedGames` (game_id to completion time) and the four save counters. */
module ServerMsSQL {
  import opened Optional
  import opened Snapshots

  datatype Statistics = Statistics(
    saveCount: nat,
    saveErrorCount: nat,
    saveConflictUndoCount: nat,
    saveConflictNormalCount: nat)

  /** The errors the store throws: no matching row, JSON.parse or OPENJSON rejecting the stored
      text, a primary key already present, a participant id that starts with neither 'p' nor 's'. */
  datatype DbError = NotFound | ParseError | DuplicateKey | NeitherPlayerNorSpectator

  datatype Result<T> = Ok(value: T) | Err(error: DbError)

  datatype Outcome = Pass | Fail(error: DbError)

  /** What the MERGE of a save did: it threw, or it returned an OUTPUT record set that is
      empty or not. */
  datatype MergeOutcome = MergeThrew | MergeReturned(outputNonEmpty: bool)

  /** One entry of the participant ledger as the store hands it out. */
  datatype GameIdLedger = GameIdLedger(gameId: GameId, participantIds: seq<ParticipantId>)

  type LedgerRow = (GameId, ParticipantId)

  predicate Distinct<T(==)>(s: seq<T>)
  {
    forall i, j :: 0 <= i < j < |s| ==> s[i] != s[j]
  }

  // ---------------------------------------------------------------------------
  // The VALUES text of storeParticipants

  /** `('gameId','participant')`, with no escaping of quotes. */
  function ValuesTuple(g: GameId, p: ParticipantId): string
  {
    "('" + g + "','" + p + "')"
  }

  /** `participantIds.map(...)`: one tuple per participant, in order. */
  function ValuesTuples(g: GameId, ids: seq<ParticipantId>): (r: seq<string>)
    ensures |r| == |ids|
  {
    if ids == [] then [] else [ValuesTuple(g, ids[0])] + ValuesTuples(g, ids[1..])
  }

  /** `Array.prototype.join`. */
  function Join(parts: seq<string>, sep: string): string
  {
    if |parts| == 0 then ""
    else if |parts| == 1 then parts[0]
    else parts[0] + sep + Join(parts[1..], sep)
  }

  function ValuesClause(g: GameId, ids: seq<ParticipantId>): string
  {
    Join(ValuesTuples(g, ids), ", ")
  }

  predicate NoQuote(s: string)
  {
    '\'' !in s
  }

  /** The characters of s up to its first quote. */
  function TakeUntilQuote(s: string): (r: string)
    ensures |r| <= |s| && r == s[..|r|] && NoQuote(r)
    ensures |r| < |s| ==> s[|r|] == '\''
  {
    if s == [] || s[0] == '\'' then [] else [s[0]] + TakeUntilQuote(s[1..])
  }

  /** The text after the literal `lit` at the front of s, if s starts with it. */
  function Expect(lit: string, s: string): Option<string>
  {
    if |lit| <= |s| && s[..|lit|] == lit then Some(s[|lit|..]) else None
  }

  /** Splits s before its first quote: the quote-free field and the text from the quote on. */
  function Field(s: string): (string, string)
  {
    var a := TakeUntilQuote(s);
    (a, s[|a|..])
  }

  /** The row literal of (a, b) followed by `rest`. */
  function TupleText(a: string, b: string, rest: string): string
  {
    "('" + (a + ("','" + (b + ("')" + rest))))
  }

  /** Reads one `('a','b')` row literal at the front of s; gives the row and the text after it. */
  function ParseTuple(s: string): Option<(LedgerRow, string)>
  {
    match Expect("('", s)
    case None => None
    case Some(r0) =>
      var f1 := Field(r0);
      match Expect("','", f1.1)
      case None => None
      case Some(r2) =>
        var f2 := Field(r2);
        match Expect("')", f2.1)
        case None => None
        case Some(r4) => Some(((f1.0, f2.0), r4))
  }

  lemma ExpectSound(lit: string, s: string)
    requires Expect(lit, s).Some?
    ensures s == lit + Expect(lit, s).value
  {
  }

  lemma FieldSound(s: string)
    ensures s == Field(s).0 + Field(s).1 && NoQuote(Field(s).0)
  {
  }

  /** The parser accepts only row literals: whatever it reads is `('a','b')` with quote-free
      a and b, followed by the rest it returns. */
  lemma ParseTupleSound(s: string)
    requires ParseTuple(s).Some?
    ensures var r := ParseTuple(s).value;
      && NoQuote(r.0.0) && NoQuote(r.0.1)
      && s == TupleText(r.0.0, r.0.1, r.1)
  {
    var r0 := Expect("('", s).value;
    ExpectSound("('", s);
    FieldSound(r0);
    var r2 := Expect("','", Field(r0).1).value;
    ExpectSound("','", Field(r0).1);
    FieldSound(r2);
    ExpectSound("')", Field(r2).1);
  }

  /** The rows a VALUES list `t1, t2, ...` of row literals denotes; None when the text is not
      such a list (the empty text included, so the INSERT is a syntax error). */
  function ParseValues(s: string): Option<seq<LedgerRow>>
    decreases |s|
  {
    match ParseTuple(s)
    case None => None
    case Some((row, rest)) =>
      if rest == [] then Some([row])
      else if |rest| >= 2 && rest[..2] == ", " then
        match ParseValues(rest[2..])
        case None => None
        case Some(rows) => Some([row] + rows)
      else None
  }

  lemma {:induction false} TakeUntilQuoteOf(x: string, y: string)
    requires NoQuote(x)
    ensures TakeUntilQuote(x + "'" + y) == x
    decreases |x|
  {
    if x != [] {
      assert (x + "'" + y)[1..] == x[1..] + "'" + y;
      TakeUntilQuoteOf(x[1..], y);
    }
  }

  lemma ExpectOf(lit: string, rest: string)
    ensures Expect(lit, lit + rest) == Some(rest)
  {
    assert (lit + rest)[..|lit|] == lit;
  }

  lemma FieldOf(x: string, y: string)
    requires NoQuote(x)
    ensures Field(x + ("'" + y)) == (x, "'" + y)
  {
    assert x + ("'" + y) == x + "'" + y;
    TakeUntilQuoteOf(x, y);
    assert (x + "'" + y)[|x|..] == "'" + y;
  }

  /** A row literal of quote-free ids reads back as that row, the text after it untouched. */
  lemma ParseTupleOf(g: GameId, p: ParticipantId, rest: string)
    requires NoQuote(g) && NoQuote(p)
    ensures ParseTuple(ValuesTuple(g, p) + rest) == Some(((g, p), rest))
  {
    ValuesTupleText(g, p, rest);
    ParseTupleText(g, p, rest);
  }

  lemma ValuesTupleText(g: GameId, p: ParticipantId, rest: string)
    ensures ValuesTuple(g, p) + rest == TupleText(g, p, rest)
  {
  }

  lemma ParseTupleText(g: GameId, p: ParticipantId, rest: string)
    requires NoQuote(g) && NoQuote(p)
    ensures ParseTuple(TupleText(g, p, rest)) == Some(((g, p), rest))
  {
    ExpectOf("('", g + ("','" + (p + ("')" + rest))));
    assert "','" + (p + ("')" + rest)) == "'" + (",'" + (p + ("')" + rest)));
    FieldOf(g, ",'" + (p + ("')" + rest)));
    ExpectOf("','", p + ("')" + rest));
    assert "')" + rest == "'" + (")" + rest);
    FieldOf(p, ")" + rest);
    ExpectOf("')", rest);
  }

  function Pairs(g: GameId, ids: seq<ParticipantId>): (r: seq<LedgerRow>)
    ensures |r| == |ids| && forall i :: 0 <= i < |ids| ==> r[i] == (g, ids[i])
  {
    seq(|ids|, i requires 0 <= i < |ids| => (g, ids[i]))
  }

  lemma ValuesClauseCons(g: GameId, ids: seq<ParticipantId>)
    requires |ids| >= 2
    ensures ValuesClause(g, ids) == ValuesTuple(g, ids[0]) + (", " + ValuesClause(g, ids[1..]))
  {
    assert ValuesTuples(g, ids)[1..] == ValuesTuples(g, ids[1..]);
  }

  lemma ParseValuesCons(g: GameId, p: ParticipantId, tail: string)
    requires NoQuote(g) && NoQuote(p)
    ensures ParseValues(ValuesTuple(g, p) + (", " + tail)) ==
      match ParseValues(tail)
      case Some(rows) => Some([(g, p)] + rows)
      case None => None
  {
    ParseTupleOf(g, p, ", " + tail);
    assert (", " + tail)[2..] == tail;
  }

  lemma ParseValuesSingle(g: GameId, p: ParticipantId)
    requires NoQuote(g) && NoQuote(p)
    ensures ParseValues(ValuesTuple(g, p)) == Some([(g, p)])
  {
    ParseTupleOf(g, p, "");
    assert ValuesTuple(g, p) + "" == ValuesTuple(g, p);
  }

  /** Round trip of storeParticipants' text: for quote-free ids the VALUES list denotes exactly
      the rows (gameId, id), one per id, in the order given. */
  lemma {:induction false} ParseValuesClause(g: GameId, ids: seq<ParticipantId>)
    requires ids != [] && NoQuote(g) && forall i :: 0 <= i < |ids| ==> NoQuote(ids[i])
    ensures ParseValues(ValuesClause(g, ids)) == Some(Pairs(g, ids))
    decreases |ids|
  {
    if |ids| == 1 {
      ParseValuesClauseSingle(g, ids);
    } else {
      ValuesClauseCons(g, ids);
      ParseValuesClause(g, ids[1..]);
      ParseValuesConsOf(ValuesClause(g, ids), g, ids[0], ValuesClause(g, ids[1..]), Pairs(g, ids[1..]));
      PairsCons(g, ids);
    }
  }

  lemma PairsCons(g: GameId, ids: seq<ParticipantId>)
    requires ids != []
    ensures Pairs(g, ids) == [(g, ids[0])] + Pairs(g, ids[1..])
  {
  }

  lemma ParseValuesClauseSingle(g: GameId, ids: seq<ParticipantId>)
    requires |ids| == 1 && NoQuote(g) && NoQuote(ids[0])
    ensures ParseValues(ValuesClause(g, ids)) == Some(Pairs(g, ids))
  {
    ParseValuesSingle(g, ids[0]);
    assert ValuesTuples(g, ids) == [ValuesTuple(g, ids[0])];
    assert Pairs(g, ids) == [(g, ids[0])];
  }

  lemma ParseValuesConsOf(text: string, g: GameId, p: ParticipantId, tail: string, rows: seq<LedgerRow>)
    requires NoQuote(g) && NoQuote(p)
    requires text == ValuesTuple(g, p) + (", " + tail) && ParseValues(tail) == Some(rows)
    ensures ParseValues(text) == Some([(g, p)] + rows)
  {
    ParseValuesCons(g, p, tail);
  }

  /** The participants table after `INSERT INTO participants VALUES <text>`: the statement adds
      every row its text denotes or, when the text does not parse, names a row twice or names a
      row already present (the table's primary key), fails and adds none. */
  function LedgerInsert(ledger: set<LedgerRow>, text: string): (r: Option<set<LedgerRow>>)
    ensures r.Some? ==> ledger <= r.value
  {
    match ParseValues(text)
    case None => None
    case Some(rows) =>
      if Distinct(rows) && forall i :: 0 <= i < |rows| ==> rows[i] !in ledger
      then Some(ledger + set i | 0 <= i < |rows| :: rows[i])
      else None
  }

  /** Storing quote-free, new, distinct participant ids adds exactly one ledger row per id. */
  lemma StoreNewParticipants(ledger: set<LedgerRow>, g: GameId, ids: seq<ParticipantId>)
    requires ids != [] && NoQuote(g) && forall i :: 0 <= i < |ids| ==> NoQuote(ids[i])
    requires Distinct(ids) && forall i :: 0 <= i < |ids| ==> (g, ids[i]) !in ledger
    ensures LedgerInsert(ledger, ValuesClause(g, ids)) == Some(ledger + set p | p in ids :: (g, p))
  {
    ParseValuesClause(g, ids);
    PairsDistinctNew(ledger, g, ids);
    PairsSet(g, ids);
    LedgerInsertParsed(ledger, ValuesClause(g, ids), Pairs(g, ids));
  }

  lemma PairsDistinctNew(ledger: set<LedgerRow>, g: GameId, ids: seq<ParticipantId>)
    requires Distinct(ids) && forall i :: 0 <= i < |ids| ==> (g, ids[i]) !in ledger
    ensures Distinct(Pairs(g, ids)) && forall i :: 0 <= i < |ids| ==> Pairs(g, ids)[i] !in ledger
  {
  }

  lemma PairsSet(g: GameId, ids: seq<ParticipantId>)
    ensures (set i | 0 <= i < |ids| :: Pairs(g, ids)[i]) == set p | p in ids :: (g, p)
  {
    var rows := Pairs(g, ids);
    forall p | p in ids ensures (g, p) in set i | 0 <= i < |rows| :: rows[i] {
      var i :| 0 <= i < |ids| && ids[i] == p;
      assert rows[i] == (g, p);
    }
  }

  lemma LedgerInsertParsed(ledger: set<LedgerRow>, text: string, rows: seq<LedgerRow>)
    requires ParseValues(text) == Some(rows)
    requires Distinct(rows) && forall i :: 0 <= i < |rows| ==> rows[i] !in ledger
    ensures LedgerInsert(ledger, text) == Some(ledger + set i | 0 <= i < |rows| :: rows[i])
  {
  }

  /** An empty list of participants makes the INSERT fail. */
  lemma StoreNoParticipants(ledger: set<LedgerRow>, g: GameId)
    ensures LedgerInsert(ledger, ValuesClause(g, [])) == None
  {
  }

  /** The ids recorded on a first save: the players in order, then the spectator when its id is a
      non-empty (truthy) string. */
  function ParticipantIdsOf(playerIds: seq<ParticipantId>, spectatorId: Option<ParticipantId>): (ids: seq<ParticipantId>)
    ensures |ids| == |playerIds| + (if spectatorId.Some? && spectatorId.value != "" then 1 else 0)
    ensures ids[..|playerIds|] == playerIds
    ensures |ids| > |playerIds| ==> ids[|playerIds|] == spectatorId.value
  {
    if spectatorId.Some? && spectatorId.value != "" then playerIds + [spectatorId.value] else playerIds
  }

  /** `first.filter((x) => !second.includes(x))`: the save ids an undo removed. */
  function Difference(first: seq<int>, second: seq<int>): (r: seq<int>)
    ensures forall x :: x in r <==> x in first && x !in second
    ensures Distinct(first) ==> Distinct(r)
  {
    if first == [] then []
    else (if first[0] in second then [] else [first[0]]) + Difference(first[1..], second)
  }

  /** Whether a save-0 row identifies the participant: for an id starting with 'p', one of the
      serialized players has that id; for one starting with 's', the spectator id equals it. */
  predicate SeedNames(row: Row, participantId: ParticipantId)
  {
    && |participantId| > 0
    && row.game.Json?
    && (participantId[0] == 'p' ==> participantId in row.game.game.playerIds)
    && (participantId[0] == 's' ==> row.game.game.spectatorId == Some(participantId))
  }

  /** Some seed save (save 0) holds text that is no JSON. */
  predicate HasMalformedSeed(t: Table)
  {
    exists k :: k in t && k.1 == 0 && t[k].game.Malformed?
  }

  /** The games a set of ledger rows names. */
  function GamesOf(rows: set<LedgerRow>): set<GameId>
  {
    set e | e in rows :: e.0
  }

  /** `multimap.set(row.game_id, row.participant)` for each ledger row: the multimap has one key
      per game of the ledger, holding each of that game's participants once, and `order` lists
      its keys in the order they were first set. */
  method GroupByGame(ledger: set<LedgerRow>) returns (multimap: map<GameId, seq<ParticipantId>>, order: seq<GameId>)
    ensures multimap.Keys == GamesOf(ledger)
    ensures forall g, p :: g in multimap ==> (p in multimap[g] <==> (g, p) in ledger)
    ensures forall g :: g in multimap ==> |multimap[g]| > 0 && Distinct(multimap[g])
    ensures Distinct(order) && forall g :: g in order <==> g in multimap
  {
    var rows := ledger;
    multimap := map[];
    order := [];
    while rows != {}
      invariant rows <= ledger
      invariant multimap.Keys == GamesOf(ledger - rows)
      invariant forall g, p :: g in multimap ==> (p in multimap[g] <==> (g, p) in ledger - rows)
      invariant forall g :: g in multimap ==> |multimap[g]| > 0 && Distinct(multimap[g])
      invariant Distinct(order) && forall g :: g in order <==> g in multimap
      decreases |rows|
    {
      ghost var some := Pick(rows);
      var row :| row in rows;
      if row.0 in multimap {
        multimap := multimap[row.0 := multimap[row.0] + [row.1]];
      } else {
        multimap := multimap[row.0 := [row.1]];
        order := order + [row.0];
      }
      rows := rows - {row};
    }
  }

  class MsSQL {
    var games: Table
    var participants: set<LedgerRow>
    var completedGames: map<GameId, int>
    var statistics: Statistics

    /** A store over a database that already holds the three tables; the save counters start
        at zero. */
    constructor (games: Table, participants: set<LedgerRow>, completedGames: map<GameId, int>)
      ensures this.games == games && this.participants == participants
      ensures this.completedGames == completedGames
      ensures statistics == Statistics(0, 0, 0, 0)
    {
      this.games := games;
      this.participants := participants;
      this.completedGames := completedGames;
      statistics := Statistics(0, 0, 0, 0);
    }

    // -------------------------------------------------------------------------
    // Reads; each throws when no row matches

    /** `SELECT TOP 1 players ... WHERE save_id = 0`: the player count of the seed save. */
    function GetPlayerCount(gameId: GameId): (r: Result<int>)
      reads this
      ensures r.Ok? <==> (gameId, 0) in games
      ensures r.Ok? ==> r.value == games[(gameId, 0)].players
      ensures r.Err? ==> r.error == NotFound
    {
      if (gameId, 0) in games then Ok(games[(gameId, 0)].players) else Err(NotFound)
    }

    /** The parsed seed save (save 0), which clones start from. */
    function LoadCloneableGame(gameId: GameId): (r: Result<SerializedGame>)
      reads this
      ensures r == Err(NotFound) <==> (gameId, 0) !in games
      ensures r == Err(ParseError) <==> (gameId, 0) in games && games[(gameId, 0)].game.Malformed?
      ensures r.Err? ==> r.error in {NotFound, ParseError}
      ensures r.Ok? ==> (gameId, 0) in games && games[(gameId, 0)].game == Json(r.value)
      ensures (gameId, 0) in games && games[(gameId, 0)].game.Json? ==> r == Ok(games[(gameId, 0)].game.game)
    {
      if (gameId, 0) !in games then Err(NotFound)
      else match games[(gameId, 0)].game
        case Json(s) => Ok(s)
        case Malformed(_) => Err(ParseError)
    }

    /** `SELECT TOP 1 game ... ORDER BY save_id DESC`: the parsed save with the highest save id. */
    function GetGame(gameId: GameId): (r: Result<SerializedGame>)
      reads this
      ensures r == Err(NotFound) <==> SaveIds(games, gameId) == {}
      ensures r == Err(ParseError) <==>
        MaxSaveId(games, gameId).Some? && games[(gameId, MaxSaveId(games, gameId).value)].game.Malformed?
      ensures r.Err? ==> r.error in {NotFound, ParseError}
      ensures r.Ok? ==> exists s :: s in SaveIds(games, gameId) && games[(gameId, s)].game == Json(r.value)
                                    && forall s' :: s' in SaveIds(games, gameId) ==> s' <= s
      ensures MaxSaveId(games, gameId).Some? && games[(gameId, MaxSaveId(games, gameId).value)].game.Json? ==>
        r == Ok(games[(gameId, MaxSaveId(games, gameId).value)].game.game)
    {
      match MaxSaveId(games, gameId)
      case None => Err(NotFound)
      case Some(m) =>
        match games[(gameId, m)].game
        case Json(s) => Ok(s)
        case Malformed(_) => Err(ParseError)
    }

    /** The stored text of one exact version, not parsed. */
    function GetGameVersion(gameId: GameId, saveId: int): (r: Result<Blob>)
      reads this
      ensures r.Ok? <==> (gameId, saveId) in games
      ensures r.Ok? ==> r.value == games[(gameId, saveId)].game
      ensures r.Err? ==> r.error == NotFound
    {
      if (gameId, saveId) in games then Ok(games[(gameId, saveId)].game) else Err(NotFound)
    }

    /** One exact version, parsed. */
    function RestoreGame(gameId: GameId, saveId: int): (r: Result<SerializedGame>)
      reads this
      ensures r == Err(NotFound) <==> (gameId, saveId) !in games
      ensures r == Err(ParseError) <==> (gameId, saveId) in games && games[(gameId, saveId)].game.Malformed?
      ensures r.Err? ==> r.error in {NotFound, ParseError}
      ensures r.Ok? ==> (gameId, saveId) in games && games[(gameId, saveId)].game == Json(r.value)
      ensures (gameId, saveId) in games && games[(gameId, saveId)].game.Json? ==>
        r == Ok(games[(gameId, saveId)].game.game)
    {
      if (gameId, saveId) !in games then Err(NotFound)
      else match games[(gameId, saveId)].game
        case Json(s) => Ok(s)
        case Malformed(_) => Err(ParseError)
    }

    /** `SELECT MAX(save_id)`: NULL when the game has no row. */
    function GetMaxSaveId(gameId: GameId): (r: Option<int>)
      reads this
      ensures r.None? <==> SaveIds(games, gameId) == {}
      ensures r.Some? ==> r.value in SaveIds(games, gameId)
                          && forall s :: s in SaveIds(games, gameId) ==> s <= r.value
    {
      MaxSaveId(games, gameId)
    }

    /** `SELECT DISTINCT save_id ...` pushed row by row: each save id of the game once, in the
        order the database returns them. */
    method GetSaveIds(gameId: GameId) returns (allSaveIds: seq<int>)
      ensures forall s :: s in allSaveIds <==> s in SaveIds(games, gameId)
      ensures Distinct(allSaveIds)
    {
      var rows := SaveIds(games, gameId);
      allSaveIds := [];
      while rows != {}
        invariant rows <= SaveIds(games, gameId)
        invariant forall s :: s in allSaveIds <==> s in SaveIds(games, gameId) - rows
        invariant Distinct(allSaveIds)
        decreases |rows|
      {
        ghost var some := Pick(rows);
        var row :| row in rows;
        allSaveIds := allSaveIds + [row];
        rows := rows - {row};
      }
    }

    /** The game whose seed save names the participant: a 'p' id among its players, an 's' id as
        its spectator; any one of them when several match. OPENJSON raises an error on a seed
        save that is no JSON, which the store logs and rethrows. */
    method GetGameId(participantId: ParticipantId) returns (r: Result<GameId>)
      ensures r.Ok? ==> (r.value, 0) in games && SeedNames(games[(r.value, 0)], participantId)
      ensures r == Err(NeitherPlayerNorSpectator) <==> |participantId| == 0 || participantId[0] !in {'p', 's'}
      ensures r == Err(ParseError) <==>
        |participantId| > 0 && participantId[0] in {'p', 's'} && HasMalformedSeed(games)
      ensures r == Err(NotFound) <==>
        |participantId| > 0 && participantId[0] in {'p', 's'} && !HasMalformedSeed(games)
        && forall k :: k in games && k.1 == 0 ==> !SeedNames(games[k], participantId)
      ensures r.Err? ==> r.error in {NeitherPlayerNorSpectator, ParseError, NotFound}
    {
      if |participantId| == 0 || participantId[0] !in {'p', 's'} {
        return Err(NeitherPlayerNorSpectator);
      }
      if HasMalformedSeed(games) {
        return Err(ParseError);
      }
      var matches := set k | k in games && k.1 == 0 && SeedNames(games[k], participantId) :: k.0;
      if matches == {} {
        forall k | k in games && k.1 == 0
          ensures !SeedNames(games[k], participantId)
        {
          assert SeedNames(games[k], participantId) ==> k.0 in matches;
        }
        return Err(NotFound);
      }
      ghost var some := Pick(matches);
      var g :| g in matches;
      r := Ok(g);
    }

    /** `SELECT game_id, participant FROM participants` grouped into a multimap: one entry per
        game of the ledger, holding every participant of that game once. */
    method GetParticipants() returns (result: seq<GameIdLedger>)
      ensures forall i, j :: 0 <= i < j < |result| ==> result[i].gameId != result[j].gameId
      ensures forall e :: e in participants ==> exists i :: 0 <= i < |result| && result[i].gameId == e.0
      ensures forall i, p :: 0 <= i < |result| ==> (p in result[i].participantIds <==> (result[i].gameId, p) in participants)
      ensures forall i :: 0 <= i < |result| ==> |result[i].participantIds| > 0 && Distinct(result[i].participantIds)
    {
      var multimap, order := GroupByGame(participants);
      result := [];
      var i := 0;
      while i < |order|
        invariant 0 <= i <= |order| && |result| == i
        invariant forall j :: 0 <= j < i ==> result[j] == GameIdLedger(order[j], multimap[order[j]])
      {
        result := result + [GameIdLedger(order[i], multimap[order[i]])];
        i := i + 1;
      }
      forall e | e in participants
        ensures exists i :: 0 <= i < |result| && result[i].gameId == e.0
      {
        assert e.0 in GamesOf(participants);
        var j :| 0 <= j < |order| && order[j] == e.0;
        assert result[j].gameId == e.0;
      }
    }

    // -------------------------------------------------------------------------
    // Writes

    /** `INSERT INTO participants ... VALUES` with the text built from the entry. */
    method StoreParticipants(entry: GameIdLedger)
      modifies this`participants
      ensures participants == match LedgerInsert(old(participants), ValuesClause(entry.gameId, entry.participantIds))
                              case Some(l) => l
                              case None => old(participants)
    {
      var values := ValuesClause(entry.gameId, entry.participantIds);
      match LedgerInsert(participants, values)
      case Some(l) => participants := l;
      case None =>
    }

    /** Saves the game at its current save id. The save counter always goes up. When the MERGE
        throws, the error counter goes up and nothing else changes. Otherwise the row for
        (game, save id read on entry) is upserted, the game's save id becomes that value plus
        one, an empty OUTPUT counts one conflict (undo or normal by the game's option), and a
        non-empty OUTPUT at save id 0 writes the participant ledger. */
    method SaveGame(game: Game, outcome: MergeOutcome, now: int)
      modifies this`games, this`participants, this`statistics, game`lastSaveId
      ensures statistics.saveCount == old(statistics.saveCount) + 1
      ensures outcome.MergeThrew? ==>
        && statistics == old(statistics).(saveCount := old(statistics.saveCount) + 1,
                                          saveErrorCount := old(statistics.saveErrorCount) + 1)
        && game.lastSaveId == old(game.lastSaveId)
        && games == old(games) && participants == old(participants)
      ensures outcome.MergeReturned? ==>
        && game.lastSaveId == old(game.lastSaveId) + 1
        && games == Upsert(old(games), game.id, old(game.lastSaveId), Json(old(game.ToJson())), |game.playerIds|, now)
        && statistics.saveErrorCount == old(statistics.saveErrorCount)
        && statistics.saveConflictUndoCount ==
             old(statistics.saveConflictUndoCount) + (if !outcome.outputNonEmpty && game.undoOption then 1 else 0)
        && statistics.saveConflictNormalCount ==
             old(statistics.saveConflictNormalCount) + (if !outcome.outputNonEmpty && !game.undoOption then 1 else 0)
        && participants ==
             if outcome.outputNonEmpty && old(game.lastSaveId) == 0 then
               match LedgerInsert(old(participants), ValuesClause(game.id, ParticipantIdsOf(game.playerIds, game.spectatorId)))
               case Some(l) => l
               case None => old(participants)
             else old(participants)
      ensures outcome.MergeReturned? ==>
        && RestoreGame(game.id, old(game.lastSaveId)) == Ok(old(game.ToJson()))
        && GetGameVersion(game.id, old(game.lastSaveId)) == Ok(Json(old(game.ToJson())))
    {
      var gameJson := game.ToJson();
      statistics := statistics.(saveCount := statistics.saveCount + 1);
      var thisSaveId := game.lastSaveId;
      match outcome
      case MergeThrew =>
        statistics := statistics.(saveErrorCount := statistics.saveErrorCount + 1);
      case MergeReturned(outputNonEmpty) =>
        games := Upsert(games, game.id, thisSaveId, Json(gameJson), |game.playerIds|, now);
        game.lastSaveId := thisSaveId + 1;
        var inserted := outputNonEmpty;
        if !inserted {
          if game.undoOption {
            statistics := statistics.(saveConflictUndoCount := statistics.saveConflictUndoCount + 1);
          } else {
            statistics := statistics.(saveConflictNormalCount := statistics.saveConflictNormalCount + 1);
          }
        }
        if inserted && thisSaveId == 0 {
          var participantIds := ParticipantIdsOf(game.playerIds, game.spectatorId);
          StoreParticipants(GameIdLedger(game.id, participantIds));
        }
    }

    /** Undo: a count of 0 or less changes nothing; otherwise the `rollbackCount` highest saves of
        the game are deleted. Returns the logged difference: the save ids present before and not
        after. */
    method DeleteGameNbrSaves(gameId: GameId, rollbackCount: int) returns (loggedDifference: seq<int>)
      modifies this`games
      ensures rollbackCount <= 0 ==> games == old(games) && loggedDifference == []
      ensures rollbackCount > 0 ==> games == DeleteTop(old(games), gameId, rollbackCount)
      ensures rollbackCount > 0 ==>
        && Distinct(loggedDifference)
        && forall s :: s in loggedDifference <==> s in TopSaveIds(SaveIds(old(games), gameId), rollbackCount)
    {
      if rollbackCount <= 0 {
        return [];
      }
      var first := GetSaveIds(gameId);
      games := DeleteTop(games, gameId, rollbackCount);
      var second := GetSaveIds(gameId);
      DeleteTopFrame(old(games), gameId, rollbackCount);
      loggedDifference := Difference(first, second);
    }

    /** Purging is switched off in this store: it deletes nothing and reports no game. */
    method PurgeUnfinishedGames(maxGameDays: Option<string>) returns (purged: seq<GameId>)
      ensures purged == []
    {
      purged := [];
    }

    /** Keeps the seed and the last save of a game and marks its rows finished. The delete, the
        update and the (disabled) purge are issued together; the first two commute
        (Snapshots.CleanStepsCommute) and the purge changes nothing. */
    method CleanGame(gameId: GameId)
      modifies this`games
      ensures games == MarkStatusFinished(DeleteIntermediate(old(games), gameId, MaxSaveId(old(games), gameId)), gameId)
    {
      var maxSaveId := GetMaxSaveId(gameId);
      games := DeleteIntermediate(games, gameId, maxSaveId);
      games := MarkStatusFinished(games, gameId);
      var _ := PurgeUnfinishedGames(None);
    }

    /** Records the game in `completed_game` (time `now`), then marks its rows finished. A game
        already recorded violates the primary key: the insert throws and nothing changes. */
    method MarkFinished(gameId: GameId, now: int) returns (r: Outcome)
      modifies this`games, this`completedGames
      ensures gameId in old(completedGames) ==>
        r == Fail(DuplicateKey) && games == old(games) && completedGames == old(completedGames)
      ensures gameId !in old(completedGames) ==>
        && r == Pass
        && completedGames == old(completedGames)[gameId := now]
        && games == MarkStatusFinished(old(games), gameId)
    {
      if gameId in completedGames {
        return Fail(DuplicateKey);
      }
      completedGames := completedGames[gameId := now];
      games := MarkStatusFinished(games, gameId);
      r := Pass;
    }
  }
}
