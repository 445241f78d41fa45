/** The older SQL Server store of src/database/MsSQL.ts. Its reads deliver through callbacks,
    its writes are issued without waiting, and errors are mostly only logged. The model runs the
    calls one after another, each statement taking effect when it is issued. */
module LegacyMsSQL {
  import opened Optional
  import opened Snapshots

  /** Errors the store hands to a callback or throws: no matching row, JSON.parse rejecting the
      stored text, a property read on a missing first row (a TypeError), and the unimplemented
      participant lookup. */
  datatype DbError = NotFound | ParseError | MissingRow | NotImplemented

  /** What a callback-style call does: call back with an optional error and an optional value,
      or throw (inside the driver's callback, or at once) without calling back. */
  datatype Delivery<T> = CalledBack(err: Option<DbError>, value: Option<T>) | Threw(error: DbError)

  /** One entry of `getClonableGames`. */
  datatype GameData = GameData(gameId: GameId, playerCount: int)

  // ---------------------------------------------------------------------------
  // The MAX_GAME_DAYS setting: `parseInt(value || '')`, and 10 unless that is an integer

  const DefaultMaxGameDays: int := 10

  /** The white space and line terminators parseInt skips before the number. */
  predicate IsJsWhiteSpace(c: char)
  {
    c in {'\t', '\n', '\U{B}', '\U{C}', '\r', ' ', '\U{A0}', '\U{1680}', '\U{2028}', '\U{2029}',
          '\U{202F}', '\U{205F}', '\U{3000}', '\U{FEFF}'}
    || '\U{2000}' <= c <= '\U{200A}'
  }

  function TrimStart(s: string): (r: string)
    ensures |r| <= |s| && r == s[|s| - |r|..]
    ensures r != [] ==> !IsJsWhiteSpace(r[0])
  {
    if s != [] && IsJsWhiteSpace(s[0]) then TrimStart(s[1..]) else s
  }

  /** The value of a digit character in radix 36, or 36 for a character that is no digit. */
  function DigitValue(c: char): (d: nat)
    ensures d <= 36
  {
    if '0' <= c <= '9' then c as int - '0' as int
    else if 'a' <= c <= 'z' then c as int - 'a' as int + 10
    else if 'A' <= c <= 'Z' then c as int - 'A' as int + 10
    else 36
  }

  /** The longest prefix of s made of digits of the radix. */
  function DigitPrefix(s: string, radix: nat): (r: string)
    ensures |r| <= |s| && r == s[..|r|]
    ensures forall i :: 0 <= i < |r| ==> DigitValue(r[i]) < radix
    ensures |r| < |s| ==> DigitValue(s[|r|]) >= radix
  {
    if s != [] && DigitValue(s[0]) < radix then [s[0]] + DigitPrefix(s[1..], radix) else []
  }

  function DigitsValue(ds: string, radix: nat): int
  {
    if ds == [] then 0 else DigitsValue(ds[..|ds| - 1], radix) * radix + DigitValue(ds[|ds| - 1])
  }

  /** The unsigned part of parseInt: hexadecimal after `0x`/`0X`, decimal otherwise, up to the
      first character that is no digit; None when no digit comes. */
  function ParseMagnitude(u: string): Option<int>
  {
    var hex := |u| >= 2 && u[0] == '0' && (u[1] == 'x' || u[1] == 'X');
    var radix := if hex then 16 else 10;
    var digits := DigitPrefix(if hex then u[2..] else u, radix);
    if digits == [] then None else Some(DigitsValue(digits, radix))
  }

  /** JavaScript's `parseInt(s)` without a radix: skip leading white space, take an optional
      sign, then the magnitude; None is NaN, when no digit was read. */
  function ParseInt(s: string): Option<int>
  {
    ParseSigned(TrimStart(s))
  }

  function ParseSigned(t: string): Option<int>
  {
    if |t| > 0 && t[0] == '-' then
      match ParseMagnitude(t[1..])
      case None => None
      case Some(v) => Some(-v)
    else ParseMagnitude(if |t| > 0 && t[0] == '+' then t[1..] else t)
  }

  /** The number of days after which rows are purged. */
  function PurgeDays(maxGameDays: Option<string>): int
  {
    var envDays := ParseInt(if maxGameDays.Some? then maxGameDays.value else "");
    if envDays.Some? then envDays.value else DefaultMaxGameDays
  }

  function DecimalDigit(d: nat): char
    requires d < 10
  {
    ('0' as int + d) as char
  }

  /** The decimal numeral of n, without leading zeros. */
  function Decimal(n: nat): (s: string)
    ensures |s| > 0 && forall i :: 0 <= i < |s| ==> '0' <= s[i] <= '9'
    ensures |s| > 1 ==> s[0] != '0'
  {
    if n < 10 then [DecimalDigit(n)] else Decimal(n / 10) + [DecimalDigit(n % 10)]
  }

  lemma {:induction false} DecimalValue(n: nat)
    ensures DigitsValue(Decimal(n), 10) == n
    decreases n
  {
    if n >= 10 {
      var s := Decimal(n);
      assert s[..|s| - 1] == Decimal(n / 10);
      DecimalValue(n / 10);
    }
  }

  /** The numeral of an integer: its decimal digits, after a minus sign when negative. */
  function Numeral(n: int): (s: string)
    ensures s != [] && (s[0] == '-' || '0' <= s[0] <= '9')
  {
    if n < 0 then "-" + Decimal(-n) else Decimal(n)
  }

  lemma {:induction false} TrimStartSkips(ws: string, s: string)
    requires forall i :: 0 <= i < |ws| ==> IsJsWhiteSpace(ws[i])
    requires s == [] || !IsJsWhiteSpace(s[0])
    ensures TrimStart(ws + s) == s
    decreases |ws|
  {
    if ws == [] {
      assert ws + s == s;
    } else {
      assert (ws + s)[1..] == ws[1..] + s;
      TrimStartSkips(ws[1..], s);
    }
  }

  lemma {:induction false} DigitPrefixStops(ds: string, rest: string, radix: nat)
    requires forall i :: 0 <= i < |ds| ==> DigitValue(ds[i]) < radix
    requires rest == [] || DigitValue(rest[0]) >= radix
    ensures DigitPrefix(ds + rest, radix) == ds
    decreases |ds|
  {
    if ds == [] {
      assert ds + rest == rest;
    } else {
      assert (ds + rest)[1..] == ds[1..] + rest;
      DigitPrefixStops(ds[1..], rest, radix);
    }
  }

  /** A character that is neither a Latin letter nor a digit ends every numeral. */
  predicate EndsNumeral(rest: string)
  {
    rest == [] || DigitValue(rest[0]) == 36
  }

  lemma MagnitudeOfDecimal(n: nat, rest: string)
    requires EndsNumeral(rest)
    ensures ParseMagnitude(Decimal(n) + rest) == Some(n)
  {
    var d := Decimal(n);
    var u := d + rest;
    assert u[0] == d[0];
    if |d| == 1 && |u| >= 2 {
      assert u[1] == rest[0];
    }
    assert !(|u| >= 2 && u[0] == '0' && (u[1] == 'x' || u[1] == 'X'));
    DigitPrefixStops(d, rest, 10);
    DecimalValue(n);
  }

  /** parseInt reads back the numeral of any integer, whatever white space comes before it and
      whatever follows it from a character that is neither a letter nor a digit on. */
  lemma ParseIntNumeral(ws: string, n: int, rest: string)
    requires forall i :: 0 <= i < |ws| ==> IsJsWhiteSpace(ws[i])
    requires EndsNumeral(rest)
    ensures ParseInt(ws + Numeral(n) + rest) == Some(n)
  {
    var s := Numeral(n) + rest;
    NumeralStartsClean(n, rest);
    assert ws + Numeral(n) + rest == ws + s;
    TrimStartSkips(ws, s);
    SignedNumeral(n, rest);
  }

  lemma NumeralStartsClean(n: int, rest: string)
    ensures !IsJsWhiteSpace((Numeral(n) + rest)[0])
  {
    var c := (Numeral(n) + rest)[0];
    assert c == Numeral(n)[0];
    assert c == '-' || '0' <= c <= '9';
  }

  lemma SignedNumeral(n: int, rest: string)
    requires EndsNumeral(rest)
    ensures ParseSigned(Numeral(n) + rest) == Some(n)
  {
    if n < 0 {
      NegativeNumeral(-n, rest);
    } else {
      NonNegativeNumeral(n, rest);
    }
  }

  lemma NegativeNumeral(m: nat, rest: string)
    requires EndsNumeral(rest)
    ensures ParseSigned("-" + Decimal(m) + rest) == Some(-(m as int))
  {
    var u := Decimal(m) + rest;
    assert "-" + Decimal(m) + rest == ['-'] + u;
    MagnitudeOfDecimal(m, rest);
    ParseSignedMinus(u, m);
  }

  lemma ParseSignedMinus(u: string, v: int)
    requires ParseMagnitude(u) == Some(v)
    ensures ParseSigned(['-'] + u) == Some(-v)
  {
    assert (['-'] + u)[1..] == u;
  }

  lemma NonNegativeNumeral(m: nat, rest: string)
    requires EndsNumeral(rest)
    ensures ParseSigned(Decimal(m) + rest) == Some(m)
  {
    var s := Decimal(m) + rest;
    assert s[0] == Decimal(m)[0];
    MagnitudeOfDecimal(m, rest);
  }

  /** An unset MAX_GAME_DAYS, an empty one and one parseInt reads as NaN all mean 10 days. */
  lemma PurgeDaysDefault(text: string)
    requires ParseInt(text) == None
    ensures PurgeDays(None) == DefaultMaxGameDays && PurgeDays(Some("")) == DefaultMaxGameDays
    ensures PurgeDays(Some(text)) == DefaultMaxGameDays
  {
    assert TrimStart("") == "";
    assert DigitPrefix("", 10) == "";
  }

  /** A non-empty run of digits of the radix. */
  predicate IsDigits(ds: string, radix: nat)
  {
    ds != [] && forall i :: 0 <= i < |ds| ==> DigitValue(ds[i]) < radix
  }

  /** The signs parseInt accepts before the magnitude. */
  predicate IsSign(sign: string)
  {
    sign == "" || sign == "+" || sign == "-"
  }

  function Signed(sign: string, v: int): int
  {
    if sign == "-" then -v else v
  }

  lemma MagnitudeDecimal(ds: string, rest: string)
    requires IsDigits(ds, 10) && (rest == [] || DigitValue(rest[0]) >= 10)
    requires !(ds == "0" && rest != [] && (rest[0] == 'x' || rest[0] == 'X'))
    ensures ParseMagnitude(ds + rest) == Some(DigitsValue(ds, 10))
  {
    var u := ds + rest;
    assert u[0] == ds[0];
    if |ds| >= 2 {
      assert u[1] == ds[1];
    } else if |u| >= 2 {
      assert u[1] == rest[0];
    }
    DigitPrefixStops(ds, rest, 10);
  }

  lemma MagnitudeHex(x: char, ds: string, rest: string)
    requires x == 'x' || x == 'X'
    requires IsDigits(ds, 16) && (rest == [] || DigitValue(rest[0]) >= 16)
    ensures ParseMagnitude("0" + [x] + ds + rest) == Some(DigitsValue(ds, 16))
  {
    var u := "0" + [x] + ds + rest;
    assert u[2..] == ds + rest;
    DigitPrefixStops(ds, rest, 16);
  }

  /** Whatever the sign, the magnitude that follows it is read as it stands. */
  lemma ParseIntSigned(ws: string, sign: string, u: string, v: int)
    requires forall i :: 0 <= i < |ws| ==> IsJsWhiteSpace(ws[i])
    requires IsSign(sign) && u != [] && '0' <= u[0] <= '9'
    requires ParseMagnitude(u) == Some(v)
    ensures ParseInt(ws + sign + u) == Some(Signed(sign, v))
  {
    var t := sign + u;
    SignedMagnitude(sign, u, v);
    assert ws + sign + u == ws + t;
    TrimStartSkips(ws, t);
  }

  lemma SignedMagnitude(sign: string, u: string, v: int)
    requires IsSign(sign) && u != [] && '0' <= u[0] <= '9'
    requires ParseMagnitude(u) == Some(v)
    ensures var t := sign + u; !IsJsWhiteSpace(t[0]) && ParseSigned(t) == Some(Signed(sign, v))
  {
    var t := sign + u;
    if sign == "-" {
      assert t == ['-'] + u;
      ParseSignedMinus(u, v);
    } else if sign == "+" {
      assert t[1..] == u;
    } else {
      assert t == u;
    }
    NoSpaceBeforeNumber(t[0]);
  }

  lemma NoSpaceBeforeNumber(c: char)
    requires c == '-' || c == '+' || '0' <= c <= '9'
    ensures !IsJsWhiteSpace(c)
  {
  }

  /** A MAX_GAME_DAYS of decimal digits (leading zeros allowed) after optional white space and
      sign, up to the first character that is no decimal digit, means that many days. The one
      exception is a lone `0` followed by `x` or `X`, which starts a hexadecimal number. */
  lemma PurgeDaysDecimal(ws: string, sign: string, ds: string, rest: string)
    requires forall i :: 0 <= i < |ws| ==> IsJsWhiteSpace(ws[i])
    requires IsSign(sign) && IsDigits(ds, 10) && (rest == [] || DigitValue(rest[0]) >= 10)
    requires !(ds == "0" && rest != [] && (rest[0] == 'x' || rest[0] == 'X'))
    ensures PurgeDays(Some(ws + sign + ds + rest)) == Signed(sign, DigitsValue(ds, 10))
  {
    MagnitudeDecimal(ds, rest);
    assert ds[0] == (ds + rest)[0];
    assert ws + sign + ds + rest == ws + sign + (ds + rest);
    ParseIntSigned(ws, sign, ds + rest, DigitsValue(ds, 10));
  }

  /** A MAX_GAME_DAYS of `0x` or `0X` and hexadecimal digits, after optional white space and
      sign, means that many days, read in base 16 up to the first character that is no
      hexadecimal digit. */
  lemma PurgeDaysHex(ws: string, sign: string, x: char, ds: string, rest: string)
    requires forall i :: 0 <= i < |ws| ==> IsJsWhiteSpace(ws[i])
    requires IsSign(sign) && (x == 'x' || x == 'X')
    requires IsDigits(ds, 16) && (rest == [] || DigitValue(rest[0]) >= 16)
    ensures PurgeDays(Some(ws + sign + "0" + [x] + ds + rest)) == Signed(sign, DigitsValue(ds, 16))
  {
    var u := "0" + [x] + ds + rest;
    MagnitudeHex(x, ds, rest);
    HexConcat(ws + sign, x, ds, rest);
    ParseIntSigned(ws, sign, u, DigitsValue(ds, 16));
  }

  lemma HexConcat(p: string, x: char, ds: string, rest: string)
    ensures p + "0" + [x] + ds + rest == p + ("0" + [x] + ds + rest)
    ensures ("0" + [x] + ds + rest)[0] == '0'
  {
  }

  /** The purge compares each row's own creation time with the cutoff and never its status, so
      the rows of a game that a clean has just marked finished are deleted when old enough. */
  lemma PurgeIgnoresStatus(t: Table, cutoff: int, k: Key)
    requires k in t && t[k].createdTime < cutoff && t[k].status == Finished
    ensures k !in PurgeOlderThan(t, cutoff)
  {
  }

  /** For a game without rows the delete (at a NULL maximum) and the status update of a clean
      change nothing; only the purge could act. */
  lemma CleanWithoutSaves(t: Table, g: GameId)
    requires SaveIds(t, g) == {}
    ensures MarkStatusFinished(DeleteIntermediate(t, g, MaxSaveId(t, g)), g) == t
  {
    var after := MarkStatusFinished(DeleteIntermediate(t, g, MaxSaveId(t, g)), g);
    forall k | k in t ensures k.0 != g {
      assert k.0 == g ==> k.1 in SaveIds(t, g);
    }
    assert after.Keys == t.Keys;
  }

  // ---------------------------------------------------------------------------
  // Ordering of listings

  /** `ORDER BY game_id ASC`, taken as lexicographic order of character codes. */
  predicate LexLeq(a: string, b: string)
  {
    |a| == 0 || (|b| > 0 && (a[0] < b[0] || (a[0] == b[0] && LexLeq(a[1..], b[1..]))))
  }

  lemma {:induction false} LexLeqTotal(a: string, b: string)
    ensures LexLeq(a, b) || LexLeq(b, a)
    decreases |a|
  {
    if |a| > 0 && |b| > 0 && a[0] == b[0] {
      LexLeqTotal(a[1..], b[1..]);
    }
  }

  lemma {:induction false} LexLeqTransitive(a: string, b: string, c: string)
    requires LexLeq(a, b) && LexLeq(b, c)
    ensures LexLeq(a, c)
    decreases |a|
  {
    if |a| > 0 && a[0] == b[0] && b[0] == c[0] {
      LexLeqTransitive(a[1..], b[1..], c[1..]);
    }
  }

  /** The least game id of a non-empty set, by LexLeq. */
  lemma {:induction false} Least(s: set<GameId>) returns (m: GameId)
    requires s != {}
    ensures m in s && forall x :: x in s ==> LexLeq(m, x)
    decreases |s|
  {
    var y := Pick(s);
    var r := s - {y};
    if r == {} {
      m := y;
      forall x | x in s ensures LexLeq(m, x) { assert x !in r; LexLeqTotal(y, y); }
    } else {
      var mr := Least(r);
      LexLeqTotal(mr, y);
      if LexLeq(y, mr) {
        m := y;
        forall x | x in s ensures LexLeq(m, x) {
          if x == y { LexLeqTotal(x, x); } else { LexLeqTransitive(y, mr, x); }
        }
      } else {
        m := mr;
        forall x | x in s ensures LexLeq(m, x) { if x != y { assert x in r; } }
      }
    }
  }

  /** A key of a non-empty part of a map whose value is largest. */
  lemma {:induction false} Latest(times: map<GameId, int>, s: set<GameId>) returns (m: GameId)
    requires s != {} && s <= times.Keys
    ensures m in s && forall x :: x in s ==> times[x] <= times[m]
    decreases |s|
  {
    var y := Pick(s);
    var r := s - {y};
    if r == {} {
      m := y;
      forall x | x in s ensures times[x] <= times[m] { assert x !in r; }
    } else {
      var mr := Latest(times, r);
      m := if times[y] >= times[mr] then y else mr;
      forall x | x in s ensures times[x] <= times[m] { if x != y { assert x in r; } }
    }
  }

  /** The games that have a running row, and the save ids of those rows. */
  function RunningGames(t: Table): set<GameId>
  {
    set k | k in t && t[k].status == Running :: k.0
  }

  function RunningSaveIds(t: Table, g: GameId): (ids: set<int>)
    ensures forall s :: s in ids <==> (g, s) in t && t[(g, s)].status == Running
  {
    set k | k in t && k.0 == g && t[k].status == Running :: k.1
  }

  lemma RunningGameHasRunningSave(t: Table, g: GameId)
    requires g in RunningGames(t)
    ensures RunningSaveIds(t, g) != {}
  {
    var k :| k in t && t[k].status == Running && k.0 == g;
    assert k.1 in RunningSaveIds(t, g);
  }

  /** The creation time `getGames` sorts a game by: that of its row at the highest running
      save id. */
  function ListingTime(t: Table, g: GameId): int
    requires g in RunningGames(t)
  {
    RunningGameHasRunningSave(t, g);
    var m := MaxOf(RunningSaveIds(t, g));
    t[(g, m)].createdTime
  }

  /** The game ids that have a seed save (save 0). */
  function SeedGames(t: Table): (gs: set<GameId>)
    ensures forall g :: g in gs <==> (g, 0) in t
  {
    set k | k in t && k.1 == 0 :: k.0
  }

  /** `list` is strictly ascending by game id and every id in it precedes every id in `rest`. */
  ghost predicate AscendingBefore(list: seq<GameData>, rest: set<GameId>)
  {
    && (forall i, g :: 0 <= i < |list| && g in rest ==> LexLeq(list[i].gameId, g) && list[i].gameId != g)
    && (forall i, j :: 0 <= i < j < |list| ==>
          list[i].gameId != list[j].gameId && LexLeq(list[i].gameId, list[j].gameId))
  }

  lemma AscendingExtend(list: seq<GameData>, rest: set<GameId>, next: GameData)
    requires AscendingBefore(list, rest)
    requires next.gameId in rest && forall h :: h in rest ==> LexLeq(next.gameId, h)
    ensures AscendingBefore(list + [next], rest - {next.gameId})
  {
    var list' := list + [next];
    forall i, g | 0 <= i < |list'| && g in rest - {next.gameId}
      ensures LexLeq(list'[i].gameId, g) && list'[i].gameId != g
    {
      if i == |list| {
        assert list'[i] == next;
        if LexLeq(g, next.gameId) {
          LexLeqAntisymmetric(g, next.gameId);
        }
      }
    }
  }

  lemma {:induction false} LexLeqAntisymmetric(a: string, b: string)
    requires LexLeq(a, b) && LexLeq(b, a)
    ensures a == b
    decreases |a|
  {
    if |a| > 0 {
      LexLeqAntisymmetric(a[1..], b[1..]);
    }
  }

  /** `list` has no repeats, is descending by `times`, and comes entirely before `rest`. */
  ghost predicate DescendingBefore(list: seq<GameId>, rest: set<GameId>, times: map<GameId, int>)
  {
    && (forall i :: 0 <= i < |list| ==> list[i] in times && list[i] !in rest)
    && (forall i, g :: 0 <= i < |list| && g in rest && g in times ==> times[list[i]] >= times[g])
    && (forall i, j :: 0 <= i < j < |list| ==> list[i] != list[j] && times[list[i]] >= times[list[j]])
  }

  lemma DescendingExtend(list: seq<GameId>, rest: set<GameId>, times: map<GameId, int>, next: GameId)
    requires DescendingBefore(list, rest, times)
    requires next in rest && rest <= times.Keys && forall h :: h in rest ==> times[h] <= times[next]
    ensures DescendingBefore(list + [next], rest - {next}, times)
  {
  }

  /** Every entry of a listing names a seed save and carries its player count. */
  ghost predicate SeedCounts(t: Table, list: seq<GameData>)
  {
    forall i :: 0 <= i < |list| ==> (list[i].gameId, 0) in t && list[i].playerCount == t[(list[i].gameId, 0)].players
  }

  lemma SeedCountsExtend(t: Table, list: seq<GameData>, next: GameData)
    requires SeedCounts(t, list) && (next.gameId, 0) in t && next.playerCount == t[(next.gameId, 0)].players
    ensures SeedCounts(t, list + [next])
  {
  }

  /** The game ids of a listing. */
  function ListedIds(list: seq<GameData>): set<GameId>
  {
    set i | 0 <= i < |list| :: list[i].gameId
  }

  lemma ListedIdsAppend(list: seq<GameData>, next: GameData)
    ensures ListedIds(list + [next]) == ListedIds(list) + {next.gameId}
  {
    var list' := list + [next];
    assert list'[|list|] == next;
    forall g | g in ListedIds(list) ensures g in ListedIds(list') {
      var i :| 0 <= i < |list| && list[i].gameId == g;
      assert list'[i] == list[i];
    }
  }

  class MsSQL {
    var games: Table

    /** A store over a database whose `games` table already holds `games`. */
    constructor (games: Table)
      ensures this.games == games
    {
      this.games := games;
    }

    // -------------------------------------------------------------------------
    // Listings

    /** `getClonableGames`: one entry per seed save with its player count, ascending by game
        id, pushed row by row. */
    method GetClonableGames() returns (allGames: seq<GameData>)
      ensures forall i :: 0 <= i < |allGames| ==>
        (allGames[i].gameId, 0) in games && allGames[i].playerCount == games[(allGames[i].gameId, 0)].players
      ensures forall g :: (g, 0) in games ==> exists i :: 0 <= i < |allGames| && allGames[i].gameId == g
      ensures forall i, j :: 0 <= i < j < |allGames| ==>
        allGames[i].gameId != allGames[j].gameId && LexLeq(allGames[i].gameId, allGames[j].gameId)
    {
      var rows := SeedGames(games);
      allGames := [];
      while rows != {}
        invariant rows <= SeedGames(games)
        invariant SeedCounts(games, allGames)
        invariant ListedIds(allGames) == SeedGames(games) - rows
        invariant AscendingBefore(allGames, rows)
        decreases |rows|
      {
        ghost var least := Least(rows);
        var g :| g in rows && forall h :: h in rows ==> LexLeq(g, h);
        var entry := GameData(g, games[(g, 0)].players);
        AscendingExtend(allGames, rows, entry);
        SeedCountsExtend(games, allGames, entry);
        ListedIdsAppend(allGames, entry);
        allGames := allGames + [entry];
        rows := rows - {g};
      }
      forall g | (g, 0) in games
        ensures exists i :: 0 <= i < |allGames| && allGames[i].gameId == g
      {
        assert g in ListedIds(allGames);
      }
    }

    /** `getGames`: each game that has running rows once, ordered by the creation time of its
        row at the highest running save id, latest first (ties in any order). */
    method GetGames() returns (allGames: seq<GameId>)
      ensures forall g :: g in allGames <==> g in RunningGames(games)
      ensures forall i, j :: 0 <= i < j < |allGames| ==>
        allGames[i] != allGames[j] && ListingTime(games, allGames[i]) >= ListingTime(games, allGames[j])
    {
      var running := RunningGames(games);
      var times := map g | g in running :: ListingTime(games, g);
      var rows := running;
      allGames := [];
      while rows != {}
        invariant rows <= running
        invariant forall g :: g in running ==> g in times && times[g] == ListingTime(games, g)
        invariant forall g :: g in allGames <==> g in running - rows
        invariant DescendingBefore(allGames, rows, times)
        decreases |rows|
      {
        ghost var latest := Latest(times, rows);
        var g :| g in rows && forall h :: h in rows ==> times[h] <= times[g];
        DescendingExtend(allGames, rows, times, g);
        allGames := allGames + [g];
        rows := rows - {g};
      }
    }

    // -------------------------------------------------------------------------
    // Reads

    /** `loadCloneableGame`: the parsed seed save; a missing one or one that does not parse is
        an error handed to the callback. */
    function LoadCloneableGame(gameId: GameId): (r: Delivery<SerializedGame>)
      reads this
      ensures r.CalledBack?
      ensures r.err == Some(NotFound) <==> (gameId, 0) !in games
      ensures r.err == Some(ParseError) <==> (gameId, 0) in games && games[(gameId, 0)].game.Malformed?
      ensures r.err == None <==> r.value.Some?
      ensures r.err.Some? ==> r.err.value in {NotFound, ParseError}
      ensures r.value.Some? ==> (gameId, 0) in games && games[(gameId, 0)].game == Json(r.value.value)
      ensures (gameId, 0) in games && games[(gameId, 0)].game.Json? ==>
        r == CalledBack(None, Some(games[(gameId, 0)].game.game))
    {
      if (gameId, 0) !in games then CalledBack(Some(NotFound), None)
      else match games[(gameId, 0)].game
        case Json(s) => CalledBack(None, Some(s))
        case Malformed(_) => CalledBack(Some(ParseError), None)
    }

    /** `getGame`: the parsed save with the highest save id; a game without rows is an error for
        the callback, while text that does not parse throws inside the driver's callback. */
    function GetGame(gameId: GameId): (r: Delivery<SerializedGame>)
      reads this
      ensures r == CalledBack(Some(NotFound), None) <==> SaveIds(games, gameId) == {}
      ensures r.Threw? ==> r.error == ParseError
      ensures r.Threw? <==> MaxSaveId(games, gameId).Some? && games[(gameId, MaxSaveId(games, gameId).value)].game.Malformed?
      ensures MaxSaveId(games, gameId).Some? && games[(gameId, MaxSaveId(games, gameId).value)].game.Json? ==>
        r == CalledBack(None, Some(games[(gameId, MaxSaveId(games, gameId).value)].game.game))
      ensures r.CalledBack? && r.value.Some? ==>
        r.err == None &&
        exists s :: s in SaveIds(games, gameId) && games[(gameId, s)].game == Json(r.value.value)
                    && forall s' :: s' in SaveIds(games, gameId) ==> s' <= s
      ensures r == CalledBack(Some(NotFound), None) || r.Threw? || (r.CalledBack? && r.value.Some?)
    {
      match MaxSaveId(games, gameId)
      case None => CalledBack(Some(NotFound), None)
      case Some(m) =>
        match games[(gameId, m)].game
        case Json(s) => CalledBack(None, Some(s))
        case Malformed(_) => Threw(ParseError)
    }

    /** `getGameVersion`: the parsed exact version. It never checks for a missing row, so a
        missing version throws (reading `.game` of an undefined row) instead of calling back. */
    function GetGameVersion(gameId: GameId, saveId: int): (r: Delivery<SerializedGame>)
      reads this
      ensures r == Threw(MissingRow) <==> (gameId, saveId) !in games
      ensures r == Threw(ParseError) <==> (gameId, saveId) in games && games[(gameId, saveId)].game.Malformed?
      ensures r.Threw? ==> r.error in {MissingRow, ParseError}
      ensures r.CalledBack? ==>
        r.err == None && r.value.Some? && (gameId, saveId) in games && games[(gameId, saveId)].game == Json(r.value.value)
      ensures (gameId, saveId) in games && games[(gameId, saveId)].game.Json? ==>
        r == CalledBack(None, Some(games[(gameId, saveId)].game.game))
    {
      if (gameId, saveId) !in games then Threw(MissingRow)
      else match games[(gameId, saveId)].game
        case Json(s) => CalledBack(None, Some(s))
        case Malformed(_) => Threw(ParseError)
    }

    /** `restoreGame`: the exact version, deserialized. A missing version calls back with
        neither an error nor a game; text that does not parse calls back with the error. */
    function RestoreGame(gameId: GameId, saveId: int): (r: Delivery<SerializedGame>)
      reads this
      ensures r.CalledBack?
      ensures r == CalledBack(None, None) <==> (gameId, saveId) !in games
      ensures r == CalledBack(Some(ParseError), None) <==>
        (gameId, saveId) in games && games[(gameId, saveId)].game.Malformed?
      ensures r.err.Some? ==> r.err.value == ParseError
      ensures r.value.Some? ==>
        r.err == None && (gameId, saveId) in games && games[(gameId, saveId)].game == Json(r.value.value)
      ensures (gameId, saveId) in games && games[(gameId, saveId)].game.Json? ==>
        r == CalledBack(None, Some(games[(gameId, saveId)].game.game))
    {
      if (gameId, saveId) !in games then CalledBack(None, None)
      else match games[(gameId, saveId)].game
        case Json(s) => CalledBack(None, Some(s))
        case Malformed(_) => CalledBack(Some(ParseError), None)
    }

    /** `getMaxSaveId`: calls back with the `save_id` column of the one row `MAX` yields. The
        outer Option of the value is undefined and the inner one SQL NULL: the driver hands the
        NULL of a game without rows over as `null`, so the value is never undefined. */
    function GetMaxSaveId(gameId: GameId): (r: Delivery<Option<int>>)
      reads this
      ensures r.CalledBack? && r.err == None && r.value.Some?
      ensures r.value.value.None? <==> SaveIds(games, gameId) == {}
      ensures r.value.value.Some? ==> r.value.value.value in SaveIds(games, gameId)
                                      && forall s :: s in SaveIds(games, gameId) ==> s <= r.value.value.value
    {
      CalledBack(None, Some(MaxSaveId(games, gameId)))
    }

    /** `getGameId` is not implemented: it throws at once whatever the id. */
    function GetGameId(playerId: string): (r: Delivery<GameId>)
      ensures r == Threw(NotImplemented)
    {
      Threw(NotImplemented)
    }

    // -------------------------------------------------------------------------
    // Writes

    /** Issues the upsert at the game's current save id and advances the save id by exactly one
        whatever the write does; a failed write is only logged and leaves the table as it was. */
    method SaveGame(game: Game, writeSucceeds: bool, now: int)
      modifies this`games, game`lastSaveId
      ensures game.lastSaveId == old(game.lastSaveId) + 1
      ensures writeSucceeds ==>
        games == Upsert(old(games), game.id, old(game.lastSaveId), Json(old(game.ToJson())), |game.playerIds|, now)
      ensures !writeSucceeds ==> games == old(games)
    {
      var gameJson := game.ToJson();
      if writeSucceeds {
        games := Upsert(games, game.id, game.lastSaveId, Json(gameJson), |game.playerIds|, now);
      }
      game.lastSaveId := game.lastSaveId + 1;
    }

    /** Undo: for a positive count, deletes the `rollbackCount` highest saves of the game (save 0
        too when the count reaches it); otherwise does nothing. */
    method DeleteGameNbrSaves(gameId: GameId, rollbackCount: int)
      modifies this`games
      ensures rollbackCount <= 0 ==> games == old(games)
      ensures rollbackCount > 0 ==> games == DeleteTop(old(games), gameId, rollbackCount)
    {
      if rollbackCount > 0 {
        games := DeleteTop(games, gameId, rollbackCount);
      }
    }

    /** Deletes every row created more than `PurgeDays(maxGameDays)` days before `now`, running or
        finished. */
    method PurgeUnfinishedGames(maxGameDays: Option<string>, now: int)
      modifies this`games
      ensures games == PurgeOlderThan(old(games), now - PurgeDays(maxGameDays) * SecondsPerDay)
    {
      games := PurgeOlderThan(games, now - PurgeDays(maxGameDays) * SecondsPerDay);
    }

    /** `cleanSaves`: deletes the saves strictly between 0 and the maximum, marks the game's rows
        finished, then purges. Its `=== undefined` guard never fires, since the maximum comes as
        a value or as null; for a game without rows the delete (`save_id < NULL`) and the update
        match nothing and the clean is the purge of every game's old rows alone. */
    method CleanSaves(gameId: GameId, maxGameDays: Option<string>, now: int)
      modifies this`games
      ensures games == PurgeOlderThan(
        MarkStatusFinished(DeleteIntermediate(old(games), gameId, MaxSaveId(old(games), gameId)), gameId),
        now - PurgeDays(maxGameDays) * SecondsPerDay)
      ensures SaveIds(old(games), gameId) == {} ==>
        games == PurgeOlderThan(old(games), now - PurgeDays(maxGameDays) * SecondsPerDay)
    {
      var saveId := GetMaxSaveId(gameId).value.value;
      if SaveIds(games, gameId) == {} {
        CleanWithoutSaves(games, gameId);
      }
      games := DeleteIntermediate(games, gameId, saveId);
      games := MarkStatusFinished(games, gameId);
      PurgeUnfinishedGames(maxGameDays, now);
    }
  }
}
