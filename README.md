# Raffle bot: command parsing, raffle store and draw

This project models the core of a chat bot (`index.js`) that runs raffles
("sorteios") and opens a panel-builder draft. The bot keeps two in-memory maps:

- `sorteios`: from the id of a raffle's announcement message to
  `{vencedores, participantes}`, that is, the target winner count and the users
  who joined, in joining order;
- `panelData`: from a user id to that user's panel draft.

Three kinds of event change them:

- A text message `+painel` (in any letter case) replaces the author's draft
  with an empty one.
- A text message `+sorteio <quantidade> <tipo> <vencedores> <condição>` is
  split on single spaces. It is refused with a usage reply when argument 1, 2
  or 4 is missing or empty, or when `parseInt` of argument 3 is `NaN`.
  Otherwise an announcement is sent and a raffle with no participants is
  registered under the announcement's id.
- A button press on an announcement that still has an entry either joins the
  presser to the raffle ("Participar") or draws it ("Sortear"). Joining appends
  the user unless they are already in the list. Drawing removes random
  candidates from a copy of the list until the winner count is reached or no
  one is left, deletes the entry, removes the buttons and announces the winners
  as `<@id>` lines.

Files:

- `options.dfy`: the `Option` type (`None` stands for `NaN`, and for a line that is not a mention; a missing
  argument (`undefined`) is `""` in `Arg`).
- `text.dfy`: `split`/`join` on a one-character separator, with their round
  trips, and ASCII lower-casing.
- `numbers.dfy`: `parseInt` on a token (optional sign, then the longest run of
  decimal digits), and the decimal rendering that it reads back.
- `commands.dfy`: `ParseMessage`, from a message to the command it denotes, and
  the lemmas on what is accepted and what is refused.
- `draw.dfy`: the draw as a specification function `DrawSpec`, the loop
  `DrawWinners` proved equal to it, the properties of the draw, and the
  announcement text.
- `bot.dfy`: the class `RaffleBot`, whose fields `raffles` and `drafts` are the
  two maps. Its methods are the event handlers. Three client methods drive
  the handlers: a refused command, three signups, and a raffle's whole life.

Inputs the program gets from outside are parameters here:

- whether the author is a bot;
- the id the channel gives a newly sent announcement;
- whether an interaction is a button press, with its custom id;
- the indices `Math.floor(Math.random() * n)` would produce. These are a
  sequence `picks` whose `j`-th element is below `n - j`, where `n` is the
  number of participants.

Behaviour of `index.js` that a reader might not expect, and that the model
keeps:

- A draw has no permission check: anyone who presses "Sortear" draws the
  raffle (index.js:167).
- A draw with no participants still deletes the entry and announces an empty
  winner list (index.js:171-181).
- The entry is deleted before the buttons are removed from the announcement
  (index.js:176-177).
- The winner count is whatever `parseInt` returns (index.js:119-122): `0`,
  negative counts, `+2`, `007` and `2abc` (read as 2) are all accepted.
- A draft starts with an embed and an empty field list, and nothing in this
  file fills the list: the panel's editing buttons have no handlers in this
  file (index.js:89-111).

## Model

| member | source | states |
|---|---|---|
| `Text.Split` | index.js:115 | `split(" ")` always gives at least one piece, and no piece contains the separator |
| `Text.Join` | index.js:180 | `join` starts with its first piece; `SplitJoin` is its inverse |
| `Text.JoinSplit` | index.js:115 | joining the pieces of `split` with the separator gives back the message exactly |
| `Text.SplitJoin` | index.js:180 | splitting a join of separator-free lines gives back the lines |
| `Text.SplitJoinPrefix` | index.js:115-120 | the first arguments of a message are its first space-separated words, whatever follows after a space |
| `Text.ToLowerAscii` | index.js:88 | lower-casing keeps the length, changes only upper-case ASCII letters, turns each into its lower-case letter (code point plus 32), and leaves none |
| `Numbers.DigitPrefix` | index.js:119 | the digit run `parseInt` reads is a prefix of the token, all digits, and as long as possible |
| `Numbers.ParseInt` | index.js:119-122 | `parseInt` is `NaN` exactly when the token does not start with a digit or with a sign followed by a digit |
| `Numbers.ParseIntDigits` | index.js:119 | `parseInt` of a digit run followed by a non-digit is the run's value |
| `Numbers.ParseIntNegative` | index.js:119 | `parseInt` of `-` and a digit run followed by a non-digit is minus the run's value |
| `Numbers.ParseIntPlus` | index.js:119 | `parseInt` of `+` and a digit run followed by a non-digit is the run's value |
| `Numbers.ParseIntRoundTrip` | index.js:119 | `parseInt` reads back any integer written in decimal, whatever non-digit text follows it (`"2abc"` gives 2) |
| `Numbers.NegativeRoundTrip` | index.js:119 | the round trip for negative counts |
| `Numbers.NatRoundTrip` | index.js:119 | the round trip for counts that are not negative |
| `Commands.ParseMessage` | index.js:84-124 | a bot's message is ignored; a started raffle's quantity, type and condition are non-empty words without spaces |
| `Commands.IsPanelCommand` | index.js:88 | only a message as long as `+painel` can be the panel command (the exact rule is `PanelCommandCases`) |
| `Commands.Arg` | index.js:117-120 | an argument is empty exactly when it is missing (`undefined`) or is the empty string, and is otherwise the word itself |
| `Commands.PanelCommandCases` | index.js:88 | `+painel` is recognised in every mix of upper and lower case, and nothing else is |
| `Commands.RaffleArgs` | index.js:115-120 | `args[0..4]` of a `+sorteio` command are its five words |
| `Commands.ParseStartRaffle` | index.js:115-150 | a `+sorteio` with non-empty words and any count token `parseInt` reads as a number (`2abc`, `+2`, `007`) starts a raffle with exactly its arguments and the number read, and extra words are ignored |
| `Commands.ParseWrittenCount` | index.js:115-122 | a count written in decimal starts a raffle for exactly that many winners, zero and negatives included |
| `Commands.CountWithLetters` | index.js:119 | `parseInt("2abc")` is 2 |
| `Commands.ParseNonNumericCount` | index.js:119-124 | a `+sorteio` whose count is not a number gets the usage reply |
| `Commands.ParseMissingArguments` | index.js:115-124 | `+sorteio` with fewer than four arguments gets the usage reply |
| `Commands.ParseEmptyArgument` | index.js:115-124 | an empty quantity, type or condition (two spaces in a row, a space at the end) gets the usage reply |
| `Commands.ExampleNonNumeric` | index.js:115-124 | `+sorteio 1 VIP abc nenhuma` gets the usage reply |
| `Commands.ExampleMissing` | index.js:115-124 | `+sorteio 1 VIP` gets the usage reply |
| `Draw.DrawCount` | index.js:171 | the number of winners is `min(max(vencedores, 0), number of participants)`: at most each, and equal to one of them |
| `Draw.ValidPicksIndices` | index.js:171-172 | the random indices are valid exactly when the `j`-th is below `n - j`, the size of the candidate list at that turn |
| `Draw.RemoveAt` | index.js:173 | `splice(i, 1)` shortens the candidates by one, and the others keep their order: those before `i` stay, those after move down one place |
| `Draw.RemoveAtMultiset` | index.js:173 | `splice(i, 1)` removes one occurrence of the picked candidate and nothing else |
| `Draw.DrawSpec` | index.js:168-174 | the winners of a draw, in selection order, when the `j`-th random index picks from the candidates left; there are `DrawCount` of them |
| `Draw.DrawSpecFromCandidates` | index.js:169-173 | every winner is a participant, and nobody wins more often than they joined |
| `Draw.PrependFromCandidates` | index.js:172-173 | a picked candidate followed by winners drawn from the others is drawn from all candidates |
| `Draw.PrependDistinctPick` | index.js:172-173 | from candidates without duplicates, the first winner is never among the later winners |
| `Draw.DrawSpecDistinct` | index.js:168-174 | from participants without duplicates, the winners are pairwise distinct |
| `Draw.DrawSpecFacts` | index.js:168-174 | a draw has the right number of winners, all participants, distinct when the participants are |
| `Draw.EveryoneWins` | index.js:171-174 | when the winner count is at least the number of participants, every participant wins |
| `Draw.DrawWinners` | index.js:168-174 | the loop yields the winners `DrawSpec` describes, in selection order: the right number, all participants, distinct when the participants are |
| `Draw.Mentions` | index.js:180 | each winner line is a `<@id>` mention that names that winner |
| `Draw.WinnersText` | index.js:180 | the winner lines are empty exactly when nobody won |
| `Draw.WinnersTextRoundTrip` | index.js:179-181 | the announcement's winner lines, read back line by line, are the winners in selection order; no winners give an empty list |
| `Draw.AnnouncementLines` | index.js:179-181 | the announcement, read line by line, is its title and then one `<@id>` per winner in selection order (an empty line when nobody won) |
| `Bot.RaffleBot.constructor` | index.js:75-76 | the bot starts with no raffles and no drafts |
| `Bot.RaffleBot.OpenPanel` | index.js:88-92 | the author's draft becomes one with an empty field list; other users' drafts and all raffles are unchanged |
| `Bot.RaffleBot.CreateRaffle` | index.js:141-150 | exactly one entry is set, under the announcement's id, with the winner count and no participants; other entries are unchanged |
| `Bot.RaffleBot.HandleMessage` | index.js:84-152 | `+painel` resets the author's draft; a valid `+sorteio` adds one raffle; a refused or ignored message changes nothing |
| `Bot.RaffleBot.Signup` | index.js:157-165 | a stale id changes nothing; a repeat signup reports "already joined" and changes nothing; a new user is appended at the end; no list ever holds a duplicate |
| `Bot.RaffleBot.DrawRaffle` | index.js:167-181 | a stale id changes nothing; otherwise the winners are the drawn ones, distinct participants of the right number, announced as `<@id>` lines, and exactly that entry is deleted |
| `Bot.RaffleBot.HandleButton` | index.js:155-184 | non-buttons, unknown buttons and stale ids change nothing; "Participar" and "Sortear" act as signup and draw |
| `Bot.RefusedRaffle` | index.js:115-124 | a `+sorteio` with a non-numeric count registers no raffle |
| `Bot.JoinThree` | index.js:159-164 | three users joining, one of them twice, leave exactly three participants in joining order |
| `Bot.RaffleLifecycle` | index.js:141-181 | a raffle for two among three participants names two distinct participants and announces them as the title followed by their mentions, and a later draw or signup on it is ignored |

## Left out

- The `GET /` and `POST /webhook` routes (index.js:39-71): the payment lookup
  is a foreign call, and the role grant works on the chat platform's cache.
  Neither holds logic of the core.
- Client setup, intents, the `ready` log and login (index.js:20-26, 79-81, 187):
  platform plumbing.
- The embeds, buttons and action rows, and the texts of the panel menu, of the
  usage reply (index.js:123), of the announcement embed and of the private
  acknowledgements. These are presentation. A reply is modelled as the
  `Command` or `ButtonOutcome` it follows from: the usage reply is the
  `RaffleUsage` command. Only the winners announcement is spelled out.
- The message edit that strips the buttons after a draw is represented only by
  the `Drawn` outcome. Failures of sends and edits are not modelled: each
  handler is one atomic step, and `async` interleaving is left out.
- `Math.random` is replaced by the `picks` input. Uniformity of the draw is not
  stated.
- The draft's embed and its timestamp (index.js:90) depend on a clock. A draft
  is modelled by its field list only.
- `Numbers.ParseInt` does not model JavaScript's `0x` hexadecimal prefix or
  leading white space. Tokens come from `split(" ")`, so a token never starts
  with a space. A token starting with a tab or a line break, or with `0x`, is
  read differently here.
- `Numbers.ParseInt` returns an exact integer. JavaScript returns a double,
  which rounds digit runs beyond 2^53 and gives `Infinity` for very long ones.
- `Commands.IsPanelCommand` lower-cases only ASCII letters. No other character
  lower-cases to a single character of `+painel`, so the comparison with
  `+painel` comes out the same.
- The panel wizard's editing actions (title, colour, image, fields, mention,
  price, preview) have no handlers in `index.js`, so the model has none either.
