/** The `SelectParty` interrupt of src/interrupts/SelectParty.ts: an or-prompt offering one option
    per Turmoil party, whose action moves delegates into the chosen party. The calls it makes on
    the game and on Turmoil are recorded as events of a trace and not carried out. */
module SelectPartyInterrupt {
  import opened Optional

  type PlayerId = string

  /** A delegate is a player's or the neutral one (`"NEUTRAL"`); players compare by identity,
      which here is their id. */
  datatype Delegate = Neutral | PlayerDelegate(player: PlayerId)

  datatype Party = Party(name: string, description: string, delegates: seq<Delegate>, partyLeader: Option<Delegate>)

  /** The calls an option's action makes, in order. */
  datatype Event =
    | AddSelectHowToPayInterrupt(player: PlayerId, price: int, canUseSteel: bool, canUseTitanium: bool, title: string)
    | RemoveDelegateFromParty(delegate: Delegate, partyName: string)
    | SendDelegateToParty(player: PlayerId, partyName: string)
    | LogDelegatesSent(player: PlayerId, nbr: int, partyName: string)

  /** The or-prompt the interrupt builds: its title and one label per option. */
  datatype OrPrompt = OrPrompt(title: string, options: seq<string>)

  const DefaultTitle: string := "Select where to send a delegate"
  const PayTitle: string := "Select how to pay for send delegate action"

  // ---------------------------------------------------------------------------
  // Which parties are offered

  /** The delegates that are not the party leader (`delegate !== party.partyLeader`). */
  function NonLeaders(delegates: seq<Delegate>, leader: Option<Delegate>): (r: seq<Delegate>)
    ensures forall d :: d in r <==> d in delegates && leader != Some(d)
  {
    if delegates == [] then []
    else (if leader == Some(delegates[0]) then [] else [delegates[0]]) + NonLeaders(delegates[1..], leader)
  }

  /** The filter applied when a delegate is to be replaced: more than one delegate, and the one
      to replace among those that are not the leader. */
  predicate Replaceable(party: Party, replace: Delegate)
  {
    |party.delegates| > 1 && replace in NonLeaders(party.delegates, party.partyLeader)
  }

  /** The parties offered, in Turmoil's order: all of them, or only the replaceable ones. */
  function OfferedParties(parties: seq<Party>, replace: Option<Delegate>): (r: seq<Party>)
    ensures |r| <= |parties|
  {
    if replace.None? || parties == [] then parties
    else (if Replaceable(parties[0], replace.value) then [parties[0]] else []) + OfferedParties(parties[1..], replace)
  }

  /** Without a delegate to replace, every party is offered, in order. */
  lemma OfferedAllWithoutReplace(parties: seq<Party>)
    ensures OfferedParties(parties, None) == parties
  {
  }

  /** With one, a party is offered exactly when it has more than one delegate, holds the one to
      replace, and is not led by it. */
  lemma {:induction false} OfferedIff(parties: seq<Party>, replace: Delegate, p: Party)
    ensures p in OfferedParties(parties, Some(replace)) <==>
      p in parties && |p.delegates| > 1 && replace in p.delegates && p.partyLeader != Some(replace)
    decreases |parties|
  {
    if parties != [] {
      OfferedIff(parties[1..], replace, p);
      assert parties == [parties[0]] + parties[1..];
    }
  }

  /** In particular a party led by the delegate to replace is never offered. */
  lemma LeaderNeverReplaced(parties: seq<Party>, replace: Delegate, p: Party)
    requires p.partyLeader == Some(replace)
    ensures p !in OfferedParties(parties, Some(replace))
  {
    OfferedIff(parties, replace, p);
  }

  /** The filter keeps Turmoil's order: it distributes over concatenation. */
  lemma {:induction false} OfferedAppend(p1: seq<Party>, p2: seq<Party>, replace: Option<Delegate>)
    ensures OfferedParties(p1 + p2, replace) == OfferedParties(p1, replace) + OfferedParties(p2, replace)
    decreases |p1|
  {
    if p1 == [] {
      assert p1 + p2 == p2;
    } else if replace.Some? {
      assert (p1 + p2)[1..] == p1[1..] + p2;
      OfferedAppend(p1[1..], p2, replace);
    }
  }

  // ---------------------------------------------------------------------------
  // The prompt

  function Label(party: Party): string
  {
    party.name + " - (" + party.description + ")"
  }

  function Labels(parties: seq<Party>): (r: seq<string>)
    ensures |r| == |parties| && forall i :: 0 <= i < |parties| ==> r[i] == Label(parties[i])
  {
    seq(|parties|, i requires 0 <= i < |parties| => Label(parties[i]))
  }

  // ---------------------------------------------------------------------------
  // What an option's action does

  /** `if (price)`: a price is charged when it is given and not zero. */
  predicate Charged(price: Option<int>)
  {
    price.Some? && price.value != 0
  }

  /** One pass of the loop: remove the delegate to replace, if any, then send one. */
  function MoveRound(player: PlayerId, partyName: string, replace: Option<Delegate>): seq<Event>
  {
    (if replace.Some? then [RemoveDelegateFromParty(replace.value, partyName)] else [])
    + [SendDelegateToParty(player, partyName)]
  }

  function Moves(player: PlayerId, partyName: string, replace: Option<Delegate>, count: nat): seq<Event>
  {
    if count == 0 then [] else Moves(player, partyName, replace, count - 1) + MoveRound(player, partyName, replace)
  }

  /** Moves alternate exactly: `count` sends, each right after one removal when replacing. */
  lemma {:induction false} MovesShape(player: PlayerId, partyName: string, replace: Option<Delegate>, count: nat)
    ensures replace.None? ==> (
      && |Moves(player, partyName, replace, count)| == count
      && forall k :: 0 <= k < count ==> Moves(player, partyName, replace, count)[k] == SendDelegateToParty(player, partyName))
    ensures replace.Some? ==> (
      && |Moves(player, partyName, replace, count)| == 2 * count
      && forall k :: 0 <= k < count ==>
           && Moves(player, partyName, replace, count)[2 * k] == RemoveDelegateFromParty(replace.value, partyName)
           && Moves(player, partyName, replace, count)[2 * k + 1] == SendDelegateToParty(player, partyName))
  {
    if count > 0 {
      MovesShape(player, partyName, replace, count - 1);
    }
  }

  /** The number of times `nbr` goes round `for (let i = 0; i < nbr; i++)`. */
  function Rounds(nbr: int): nat
  {
    if nbr > 0 then nbr else 0
  }

  /** The whole trace of an option's action for `party`. */
  function ActionEvents(player: PlayerId, party: Party, nbr: int, replace: Option<Delegate>, price: Option<int>): seq<Event>
  {
    (if Charged(price) then [AddSelectHowToPayInterrupt(player, price.value, false, false, PayTitle)] else [])
    + Moves(player, party.name, replace, Rounds(nbr))
    + [LogDelegatesSent(player, nbr, party.name)]
  }

  /** The pay interrupt, when queued, comes once and first; the log comes once and last; no
      event between them is a payment or a log. */
  lemma ActionEventsOrder(player: PlayerId, party: Party, nbr: int, replace: Option<Delegate>, price: Option<int>)
    ensures var es := ActionEvents(player, party, nbr, replace, price);
      && (es[0].AddSelectHowToPayInterrupt? <==> Charged(price))
      && es[|es| - 1] == LogDelegatesSent(player, nbr, party.name)
      && forall k :: (if Charged(price) then 1 else 0) <= k < |es| - 1 ==>
           es[k].RemoveDelegateFromParty? || es[k].SendDelegateToParty?
  {
    var ms := Moves(player, party.name, replace, Rounds(nbr));
    MovesShape(player, party.name, replace, Rounds(nbr));
    forall k | 0 <= k < |ms| ensures ms[k].RemoveDelegateFromParty? || ms[k].SendDelegateToParty? {
      if replace.Some? {
        if k % 2 == 0 { assert ms[2 * (k / 2)] == ms[k]; } else { assert ms[2 * (k / 2) + 1] == ms[k]; }
      }
    }
  }

  lemma AppendRound(start: seq<Event>, moves: seq<Event>, round: seq<Event>)
    ensures start + moves + round == start + (moves + round)
  {
  }

  lemma TraceOfAction(trace: seq<Event>, pay: seq<Event>, moves: seq<Event>, log: seq<Event>)
    ensures trace + pay + moves + log == trace + (pay + moves + log)
  {
  }

  // ---------------------------------------------------------------------------
  // The objects

  /** The game as far as the interrupt sees it: the calls it receives, in order. */
  class Game {
    var trace: seq<Event>

    constructor ()
      ensures trace == []
    {
      trace := [];
    }
  }

  class SelectParty {
    const player: PlayerId
    const game: Game
    const title: string
    const nbr: int
    const replace: Option<Delegate>
    const price: Option<int>
    /** The parties behind the options, fixed when the prompt is built. */
    const parties: seq<Party>
    var playerInput: OrPrompt

    /** Builds the or-prompt over Turmoil's `turmoilParties`: titled `title` (by default "Select
        where to send a delegate"), one option per offered party, labelled with its name and,
        in parentheses, its description. */
    constructor (player: PlayerId, game: Game, turmoilParties: seq<Party>, title: string := DefaultTitle,
                 nbr: int := 1, replace: Option<Delegate> := None, price: Option<int> := None)
      ensures this.player == player && this.game == game && this.title == title
      ensures this.nbr == nbr && this.replace == replace && this.price == price
      ensures parties == OfferedParties(turmoilParties, replace)
      ensures playerInput.title == title
      ensures |playerInput.options| == |parties|
      ensures forall i :: 0 <= i < |parties| ==>
        playerInput.options[i] == parties[i].name + " - (" + parties[i].description + ")"
    {
      this.player := player;
      this.game := game;
      this.title := title;
      this.nbr := nbr;
      this.replace := replace;
      this.price := price;
      var offered := OfferedParties(turmoilParties, replace);
      this.parties := offered;
      playerInput := OrPrompt(title, Labels(offered));
    }

    /** The callback of option `index`: queue the payment if a price is charged, go `nbr` times
        round removing the delegate to replace (if any) and sending one of the player's, log,
        and ask for no further input. */
    method RunOption(index: nat) returns (next: Option<OrPrompt>)
      requires index < |parties|
      modifies game`trace
      ensures game.trace == old(game.trace) + ActionEvents(player, parties[index], nbr, replace, price)
      ensures next == None
    {
      var party := parties[index];
      ghost var pay := if Charged(price) then [AddSelectHowToPayInterrupt(player, price.value, false, false, PayTitle)] else [];
      if Charged(price) {
        game.trace := game.trace + [AddSelectHowToPayInterrupt(player, price.value, false, false, PayTitle)];
      }
      ghost var start := game.trace;
      assert start == old(game.trace) + pay;
      var i := 0;
      while i < nbr
        invariant 0 <= i <= Rounds(nbr)
        invariant game.trace == start + Moves(player, party.name, replace, i)
      {
        ghost var before := game.trace;
        if replace.Some? {
          game.trace := game.trace + [RemoveDelegateFromParty(replace.value, party.name)];
        }
        game.trace := game.trace + [SendDelegateToParty(player, party.name)];
        assert game.trace == before + MoveRound(player, party.name, replace);
        AppendRound(start, Moves(player, party.name, replace, i), MoveRound(player, party.name, replace));
        i := i + 1;
      }
      game.trace := game.trace + [LogDelegatesSent(player, nbr, party.name)];
      TraceOfAction(old(game.trace), pay, Moves(player, party.name, replace, Rounds(nbr)), [LogDelegatesSent(player, nbr, party.name)]);
      next := None;
    }
  }
}
