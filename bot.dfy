/**
 * The bot's state and its two event handlers: `messageCreate` (the `+painel`
 * and `+sorteio` commands) and the button branch of `InteractionCreate`
 * (joining a raffle and drawing it). The two global maps of the program,
 * `sorteios` and `panelData`, are the fields of one `RaffleBot` object.
 */
module Bot {
  import opened Commands
  import opened Draw
  import opened Numbers

  /** A chat message's identity; a raffle is keyed by its announcement's id. */
  type MessageId = string

  const JoinButton: string := "participar_sorteio"
  const DrawButton: string := "sortear_sorteio"

  /** One entry of `sorteios`: the target number of winners (`vencedores`)
      and the users who joined, in joining order (`participantes`). */
  datatype Raffle = Raffle(winnerCount: int, participants: seq<UserId>)

  /** An extra embed field of a panel draft. */
  datatype Field = Field(name: string, value: string)

  /** One entry of `panelData`: a user's panel under construction. */
  datatype Draft = Draft(fields: seq<Field>)

  /** What a button press leads to. */
  datatype ButtonOutcome =
    | Unhandled                                        // no reply, no change
    | AlreadyJoined                                    // private "already participating" reply
    | Joined                                           // private "participation confirmed" reply
    | Drawn(winners: seq<UserId>, announcement: string) // buttons removed, winners announced publicly

  class RaffleBot {
    var raffles: map<MessageId, Raffle>
    var drafts: map<UserId, Draft>

    /** No user is ever in one raffle twice. */
    ghost predicate Valid()
      reads this
    {
      forall id :: id in raffles ==> NoDuplicates(raffles[id].participants)
    }

    constructor ()
      ensures Valid()
      ensures raffles == map[] && drafts == map[]
    {
      raffles := map[];
      drafts := map[];
    }

    /** `panelData.set(author, {fields: []})`: a fresh draft replaces any earlier one. */
    method OpenPanel(author: UserId)
      requires Valid()
      modifies this
      ensures Valid()
      ensures drafts == old(drafts)[author := Draft([])]
      ensures raffles == old(raffles)
    {
      drafts := drafts[author := Draft([])];
    }

    /** `sorteios.set(msg.id, {vencedores, participantes: []})` once the
        announcement `announcementId` has been sent. */
    method CreateRaffle(announcementId: MessageId, winnerCount: int)
      requires Valid()
      modifies this
      ensures Valid()
      ensures raffles == old(raffles)[announcementId := Raffle(winnerCount, [])]
      ensures drafts == old(drafts)
    {
      raffles := raffles[announcementId := Raffle(winnerCount, [])];
    }

    /** One `messageCreate` event. `sentId` is the id the channel gives the
        raffle announcement when one is sent. */
    method HandleMessage(author: UserId, authorIsBot: bool, content: string, sentId: MessageId)
      returns (command: Command)
      requires Valid()
      modifies this
      ensures Valid()
      ensures command == ParseMessage(authorIsBot, content)
      ensures command.OpenPanel? ==>
        drafts == old(drafts)[author := Draft([])] && raffles == old(raffles)
      ensures command.StartRaffle? ==>
        raffles == old(raffles)[sentId := Raffle(command.winnerCount, [])] && drafts == old(drafts)
      ensures command.Ignored? || command.RaffleUsage? ==>
        raffles == old(raffles) && drafts == old(drafts)
    {
      command := ParseMessage(authorIsBot, content);
      match command
      case OpenPanel =>
        OpenPanel(author);
      case StartRaffle(_, _, winnerCount, _) =>
        CreateRaffle(sentId, winnerCount);
      case _ =>
    }

    /** The "Participar" button on announcement `messageId`, pressed by `user`. */
    method Signup(messageId: MessageId, user: UserId) returns (outcome: ButtonOutcome)
      requires Valid()
      modifies this
      ensures Valid()
      ensures drafts == old(drafts)
      ensures messageId !in old(raffles) ==> outcome == Unhandled && raffles == old(raffles)
      ensures messageId in old(raffles) && user in old(raffles)[messageId].participants ==>
        outcome == AlreadyJoined && raffles == old(raffles)
      ensures messageId in old(raffles) && user !in old(raffles)[messageId].participants ==>
        && outcome == Joined
        && raffles == old(raffles)[messageId :=
             Raffle(old(raffles)[messageId].winnerCount, old(raffles)[messageId].participants + [user])]
    {
      if messageId !in raffles {
        return Unhandled;
      }
      var raffle := raffles[messageId];
      if user in raffle.participants {
        return AlreadyJoined;
      }
      var joined := raffle.participants + [user];
      forall a, b | 0 <= a < b < |joined| ensures joined[a] != joined[b] {
        if b == |joined| - 1 {
          assert joined[a] == raffle.participants[a];
        } else {
          assert joined[a] == raffle.participants[a] && joined[b] == raffle.participants[b];
        }
      }
      raffles := raffles[messageId := Raffle(raffle.winnerCount, joined)];
      outcome := Joined;
    }

    /** The "Sortear" button on announcement `messageId`; `picks` are the
        indices the random source yields, one per winner. */
    method DrawRaffle(messageId: MessageId, picks: seq<nat>) returns (outcome: ButtonOutcome)
      requires Valid()
      requires messageId in raffles ==>
        var r := raffles[messageId];
        |picks| == DrawCount(r.winnerCount, |r.participants|) && ValidPicks(picks, |r.participants|)
      modifies this
      ensures Valid()
      ensures drafts == old(drafts)
      ensures messageId !in old(raffles) ==> outcome == Unhandled && raffles == old(raffles)
      ensures messageId in old(raffles) ==>
        var r := old(raffles)[messageId];
        && outcome == Drawn(DrawSpec(r.participants, r.winnerCount, picks),
                            Announcement(DrawSpec(r.participants, r.winnerCount, picks)))
        && |outcome.winners| == DrawCount(r.winnerCount, |r.participants|)
        && NoDuplicates(outcome.winners)
        && (forall w :: w in outcome.winners ==> w in r.participants)
        && raffles == old(raffles) - {messageId}
    {
      if messageId !in raffles {
        return Unhandled;
      }
      var raffle := raffles[messageId];
      var winners := DrawWinners(raffle.participants, raffle.winnerCount, picks);
      forall w | w in winners ensures w in raffle.participants {
        assert multiset(winners)[w] > 0;
      }
      raffles := raffles - {messageId};
      outcome := Drawn(winners, Announcement(winners));
    }

    /** One `InteractionCreate` event: only buttons are handled, and only on
        a message that still has a raffle entry. */
    method HandleButton(isButton: bool, customId: string, messageId: MessageId, user: UserId, picks: seq<nat>)
      returns (outcome: ButtonOutcome)
      requires Valid()
      requires isButton && customId == DrawButton && messageId in raffles ==>
        var r := raffles[messageId];
        |picks| == DrawCount(r.winnerCount, |r.participants|) && ValidPicks(picks, |r.participants|)
      modifies this
      ensures Valid()
      ensures drafts == old(drafts)
      ensures !isButton || messageId !in old(raffles) || (customId != JoinButton && customId != DrawButton) ==>
        outcome == Unhandled && raffles == old(raffles)
      ensures isButton && customId == JoinButton && messageId in old(raffles) ==>
        var r := old(raffles)[messageId];
        if user in r.participants then outcome == AlreadyJoined && raffles == old(raffles)
        else outcome == Joined && raffles == old(raffles)[messageId := Raffle(r.winnerCount, r.participants + [user])]
      ensures isButton && customId == DrawButton && messageId in old(raffles) ==>
        var r := old(raffles)[messageId];
        && outcome == Drawn(DrawSpec(r.participants, r.winnerCount, picks),
                            Announcement(DrawSpec(r.participants, r.winnerCount, picks)))
        && |outcome.winners| == DrawCount(r.winnerCount, |r.participants|)
        && NoDuplicates(outcome.winners)
        && (forall w :: w in outcome.winners ==> w in r.participants)
        && raffles == old(raffles) - {messageId}
    {
      outcome := Unhandled;
      if isButton {
        if customId == JoinButton && messageId in raffles {
          outcome := Signup(messageId, user);
        } else if customId == DrawButton && messageId in raffles {
          outcome := DrawRaffle(messageId, picks);
        }
      }
    }
  }

  /** `+sorteio` with a count that is not a number, as in
      `+sorteio 1 VIP abc nenhuma`, is refused and registers no raffle. */
  method RefusedRaffle(quantity: string, kind: string, badCount: string, condition: string,
                       host: UserId, announcementId: MessageId)
    returns (refused: Command, stored: map<MessageId, Raffle>)
    requires ' ' !in quantity && ' ' !in kind && ' ' !in condition
    requires ' ' !in badCount && !StartsWithNumber(badCount)
    ensures refused == RaffleUsage
    ensures stored == map[]
  {
    var bot := new RaffleBot();
    var text := RaffleText(quantity, kind, badCount, condition);
    ParseNonNumericCount(quantity, kind, badCount, condition, "");
    assert text + "" == text;
    refused := bot.HandleMessage(host, false, text, announcementId);
    stored := bot.raffles;
  }

  /** Three users join an open raffle for two winners, the first of them twice. */
  method JoinThree(bot: RaffleBot, announcementId: MessageId, u1: UserId, u2: UserId, u3: UserId)
    returns (repeat: ButtonOutcome)
    requires bot.Valid() && announcementId in bot.raffles && bot.raffles[announcementId] == Raffle(2, [])
    requires u1 != u2 && u2 != u3 && u1 != u3
    modifies bot
    ensures bot.Valid() && announcementId in bot.raffles && bot.raffles[announcementId] == Raffle(2, [u1, u2, u3])
    ensures repeat == AlreadyJoined
  {
    assert [] + [u1] == [u1];
    var o1 := bot.Signup(announcementId, u1);
    assert bot.raffles[announcementId].participants == [u1];
    assert [u1] + [u2] == [u1, u2];
    var o2 := bot.Signup(announcementId, u2);
    assert bot.raffles[announcementId].participants == [u1, u2];
    repeat := bot.Signup(announcementId, u1);
    assert [u1, u2] + [u3] == [u1, u2, u3];
    var o3 := bot.Signup(announcementId, u3);
  }

  /** The raffle's whole life in one run, as with `+sorteio 1 VIP 2 nenhuma`:
      a command for two winners opens a raffle; three users join, one of them
      twice; the draw names two different participants; a later draw and a
      later signup on the same announcement are ignored. */
  method RaffleLifecycle(quantity: string, kind: string, condition: string,
                         host: UserId, u1: UserId, u2: UserId, u3: UserId,
                         announcementId: MessageId, picks: seq<nat>)
    returns (started: Command, repeat: ButtonOutcome, drawn: ButtonOutcome,
             redraw: ButtonOutcome, late: ButtonOutcome)
    requires IsWord(quantity) && IsWord(kind) && IsWord(condition)
    requires u1 != u2 && u2 != u3 && u1 != u3
    requires |picks| == 2 && picks[0] < 3 && picks[1] < 2
    ensures started == StartRaffle(quantity, kind, 2, condition)
    ensures repeat == AlreadyJoined
    ensures drawn.Drawn? && |drawn.winners| == 2 && drawn.winners[0] != drawn.winners[1]
    ensures drawn.announcement == Announcement(drawn.winners)
    ensures forall w :: w in drawn.winners ==> w == u1 || w == u2 || w == u3
    ensures redraw == Unhandled && late == Unhandled
  {
    var bot := new RaffleBot();
    var text := RaffleText(quantity, kind, IntToString(2), condition);
    assert ParseMessage(false, text) == StartRaffle(quantity, kind, 2, condition) by {
      ParseWrittenCount(quantity, kind, 2, condition, "");
      assert text + "" == text;
    }
    started := bot.HandleMessage(host, false, text, announcementId);
    assert bot.raffles[announcementId] == Raffle(2, []);

    repeat := JoinThree(bot, announcementId, u1, u2, u3);

    assert ValidPicks(picks, 3) by {
      assert picks[1..][1..] == [];
    }
    ghost var joined := [u1, u2, u3];
    drawn := bot.DrawRaffle(announcementId, picks);
    assert announcementId !in bot.raffles;
    assert forall w :: w in drawn.winners ==> w in joined;
    forall w | w in drawn.winners ensures w == u1 || w == u2 || w == u3 {
      var k :| 0 <= k < 3 && joined[k] == w;
    }
    redraw := bot.HandleButton(true, DrawButton, announcementId, host, picks);
    late := bot.HandleButton(true, JoinButton, announcementId, u1, []);
  }
}
