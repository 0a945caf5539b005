# Always Tired bot — a Dafny model of its command handler

The bot answers chat commands about the "Always Tired" NFT collection. Its only logic lives in
`index.js`: it links a chat user to a wallet address, reconstructs the tokens a wallet holds by
replaying the wallet's ERC-721 transfer log, and shows a random held token, the first ten held
tokens, a random token of the collection, or a token named by number.

This project models that logic:

- `ownership.dfy` (module `Ownership`): the ownership fold. The log is walked in order. A
  transfer to the wallet (compared ignoring case) adds the token id. Otherwise a transfer from
  the wallet deletes it. The JavaScript `Set` is a duplicate-free sequence in insertion order.
  `Replay`/`Owned` are the fold as functions. `ReconstructOwned` is the handler's loop, proved
  equal to them. The lemmas state last-touch membership, the empty cases, idempotence of a
  repeated event, case-insensitivity, the precedence of `to` over `from`, and order sensitivity.
- `selection.dfy` (module `Selection`): `Math.floor(Math.random() * n)` with the random value
  given as a fraction `num / den` in [0, 1), the random token number 1..4000, the random pick
  from the owned tokens, and `slice(0, 10)`.
- `pattern.dfy` (module `Pattern`): the two regular expressions `^0x[a-fA-F0-9]{40}$` and
  `^\d+$` as anchored patterns with a whole-string match relation, and what each accepts.
- `text.dfy` (module `Text`): `trim` (ECMAScript white space and line terminators),
  `split(/ +/)` (its pieces, joined by one space, are the text with each run of spaces shrunk
  to one), ASCII `toLowerCase`, and the decimal rendering of a number.
- `commands.dfy` (module `Commands`): the `!` prefix and bot filter, the command word and its
  arguments, the dispatch order of the handler, and the `!sleepyN` token id.
- `bot.dfy` (module `Bot`): class `SleepyBot` with the in-memory `walletLinks` map that
  `!linkwallet` updates in place, and the handlers of `!sleepy`, `!mysleepys` and the whole
  message handler, each answering with a `Reply` value.
- `wrappers.dfy` (module `Wrappers`): `Option`.

Network answers are parameters. One is the transfer log the provider returned. It is `None`
when the fetch or the JSON decoding threw, or when the loop threw on a row it could not read;
the handlers catch that and answer `FetchFailed`. The other is the value `Math.random()` drew.

A row without `to` throws, and so does a row without `from` whose `to` is not the wallet.
Rows are never skipped. The owned tokens are a JavaScript `Set`, which lists them in
insertion order, so the ten listed tokens are the first ten still held in that order.

## Model

| member | source | states |
|---|---|---|
| `Ownership.Insert` | index.js:125 | `Set.add`: the elements afterwards are the old ones plus the id; the old order is a prefix; no duplicates arise |
| `Ownership.Delete` | index.js:127 | `Set.delete`: the elements afterwards are the old ones minus the id; deleting an absent id changes nothing; no duplicates arise |
| `Ownership.IndexOf` | index.js:127 | the position of an id in the set: it holds the id and no earlier position does |
| `Ownership.DeleteKeepsOrder` | index.js:127 | deleting a present id from a duplicate-free set cuts it out at its position and keeps the others in their order |
| `Ownership.Replay` | index.js:122-129 | the fold keeps a duplicate-free set duplicate-free, and every id it ends with was held at the start or delivered to the wallet by some event |
| `Ownership.Owned` | index.js:122-129 | the fold from `new Set()` holds no duplicates and only ids some event delivered to the wallet |
| `Ownership.ReconstructOwned` | index.js:122-129 | the handler's `for` loop computes exactly the fold over the whole log |
| `Ownership.LastTouch` | index.js:123-128 | reference definition: the position of the last event that mentions the token with the wallet as `to` or `from`, or none |
| `Ownership.ReplayDecidedByLastTouch` | index.js:122-129 | a token is held after the fold iff the last event touching it and the wallet has the wallet as `to`; with no such event, iff it was held at the start |
| `Ownership.OwnedIffLastTouchReceives` | index.js:122-129 | a token is owned iff some event delivers it to the wallet and no later event mentions it with the wallet on either side |
| `Ownership.ForeignEventsChangeNothing` | index.js:123-129 | events with the wallet on neither side leave the set unchanged |
| `Ownership.NothingOwnedWithoutWalletEvents` | index.js:122-129 | if no event touches the wallet, in particular for an empty log, nothing is owned |
| `Ownership.ReplayAppend` | index.js:123-129 | folding `a + b` is folding `b` from the result of folding `a` |
| `Ownership.ForeignEventIgnored` | index.js:124-128 | an event with the wallet on neither side can be removed from anywhere in the log |
| `Ownership.StepIdempotent` | index.js:124-128 | applying one event twice in a row equals applying it once |
| `Ownership.RepeatedEventIgnored` | index.js:122-129 | an event repeated immediately anywhere in the log has the effect of a single one |
| `Ownership.ReplayIgnoresCase` | index.js:124-126 | changing the ASCII case of the wallet or of any log address leaves the result unchanged |
| `Ownership.ReceiveWins` | index.js:124-127 | the `to` test comes first: a transfer to the wallet adds its token whatever its `from`, so a self-transfer adds it, and nothing held is lost |
| `Ownership.OrderMatters` | index.js:123-129 | receive-then-send leaves the token out, send-then-receive leaves it in, from any starting set |
| `Selection.ScaledIndex` | index.js:134 | `Math.floor(r * n)` is the integer `i` with `i <= r * n < i + 1`, and lies below `n` when `n > 0` |
| `Selection.PickRandom` | index.js:133-134 | the picked token is a member of the non-empty array, the one at the scaled position |
| `Selection.RandomTokenNumber` | index.js:178 | `Math.floor(Math.random() * 4000) + 1` lies in 1..4000 |
| `Selection.FirstTen` | index.js:163 | `slice(0, 10)` is a prefix of the tokens of length `min(10, n)` and keeps them duplicate-free |
| `Text.Trim` | index.js:62 | the trimmed text neither begins nor ends with white space |
| `Text.TrimIsSlice` | index.js:62 | the trimmed text is a slice of the input with only white space cut before and after it |
| `Text.TrimIdempotent` | index.js:62 | trimming twice equals trimming once |
| `Text.SplitOnSpaces` | index.js:62 | `split(/ +/)` yields at least one piece and no piece contains a space |
| `Text.SplitJoinIsCollapse` | index.js:62 | for every text, the pieces of `split(/ +/)` joined by one space are the text with each run of spaces shrunk to one space |
| `Text.JoinInjective` | index.js:62 | two sequences of space-free pieces with the same join are equal, so the split's pieces are fixed by its join |
| `Text.CollapseSingleSpaced` | index.js:62 | a text without two adjacent spaces is unchanged by shrinking space runs |
| `Text.SplitJoinRoundTrip` | index.js:62 | on a text without two adjacent spaces, joining the pieces with one space gives the text back |
| `Text.FirstPieceIsFirstWord` | index.js:62 | the first piece is a prefix of the text, followed by a space or the end |
| `Text.PiecesNonEmpty` | index.js:62 | on a text not ending in a space, the pieces after the first are non-empty, and so is the first if the text does not begin with a space |
| `Text.ToLower` | index.js:63 | lower-casing keeps the length and maps each ASCII capital to its small letter, other characters to themselves |
| `Text.ToLowerIdempotent` | index.js:124 | lower-casing twice equals lower-casing once |
| `Text.DecimalString` | index.js:88 | a number renders as non-empty ASCII digits, without leading zero, that denote the number |
| `Pattern.RepeatMatches` | index.js:67 | `k{n}` followed by a pattern matches iff `n` class characters are followed by a match of the rest |
| `Pattern.OneOrMoreMatches` | index.js:189 | `k+` matches exactly the non-empty strings of class characters |
| `Pattern.AddressPatternMatches` | index.js:67 | the address pattern matches iff the text has 42 characters, starts with lower-case `0x`, and the other 40 are hex digits of either case |
| `Pattern.IsWalletAddress` | index.js:67 | the address test accepts exactly those texts; `0X` is refused |
| `Pattern.IsTokenNumber` | index.js:189 | the token-number test accepts exactly the non-empty all-digit texts |
| `Commands.WordsOfTrimmed` | index.js:62 | in a trimmed body, the first word ends at a space or at the end, and every later word is non-empty |
| `Commands.Parse` | index.js:60-63 | a message is parsed iff it starts with `!` and its author is not a bot; the command is the lower-cased first word of the trimmed body; the arguments are non-empty space-free words, and that first word and the arguments joined by one space give the trimmed body with its space runs shrunk to one |
| `Commands.Classify` | index.js:65-187 | the command selects exactly one handler by exact word, and any other word starting with `sleepy` is the `!sleepyN` form whose suffix follows `sleepy` and is non-empty |
| `Commands.NumberedTokenId` | index.js:188-191 | the `!sleepyN` suffix is the token id iff it is non-empty and all ASCII digits, with no range check |
| `Bot.LinkedWallet` | index.js:114-115 | a user is linked iff the map has a non-empty entry, and the wallet is that entry |
| `Bot.RandomOwnedShowsHeldToken` | index.js:122-135 | a token shown by `!sleepy` was delivered to the linked wallet by the last log event that mentions it with the wallet |
| `Bot.ListOwnedListsHeldTokens` | index.js:151-163 | `!mysleepys` lists 1 to 10 distinct held tokens, a prefix of the set in insertion order, all of them when at most ten are held |
| `Bot.SleepyBot.constructor` | index.js:50-53 | the bot starts with the saved wallet links |
| `Bot.SleepyBot.LinkWallet` | index.js:65-70 | the address is stored for the user iff it passes the address test; otherwise nothing changes; other users' links never change |
| `Bot.SleepyBot.ShowRandomOwned` | index.js:113-139 | `!sleepy` answers link-first, fetch-failed, nothing-owned (before any pick), or the owned token at the drawn position |
| `Bot.SleepyBot.ListOwned` | index.js:142-174 | `!mysleepys` answers link-first, fetch-failed, nothing-owned, or the first ten owned tokens |
| `Bot.SleepyBot.Handle` | index.js:59-194 | unhandled messages get no answer; only `!linkwallet` with a valid address changes the links; each command answers as its handler does, `!randomsleepy` and `!awareness` with a random token number from 1 to 4000 |

## Left out

- The Discord client: login, event wiring, replies, message deletion and the permission check (index.js:42-48, 55-57, 73-84, 196). Answers are `Reply` values.
- The HTTP calls to Etherscan and Magic Eden, the JSON decoding and the image check (index.js:93-97, 117-120, 146-149). The decoded log is a parameter. The query asks for one page of at most 100 events, so a longer history is cut off; that cap belongs to the provider and is not modelled.
- `handleSleepyToken`'s two outcomes, the view with rank and image and the text-only fallback, are one `ShowToken` reply.
- Reading and writing `walletLinks.json` (index.js:50-53, 71). The constructor takes the loaded map, and stored values are strings.
- Inherited object properties of `walletLinks`, such as `constructor`, are not modelled. User ids are numeric chat ids.
- `Math.random` and floating point (index.js:90, 134, 178, 183). A draw is an exact fraction in [0, 1), so the rounding of the float product is not modelled. Uniformity is a property of the random source and is not stated. The awareness fact pick (index.js:90) is left out with the fact texts.
- The fact list and all message texts (index.js:13-40, 99-109, 164-169).
- Text.ToLower: only ASCII letters are mapped. JavaScript's full Unicode case mapping is not modelled, for example U+212A KELVIN SIGN becoming `k`, or U+0130 becoming two code units.
- Strings are sequences of Unicode scalar values, not UTF-16 code units. This matters only outside ASCII.
- Log rows with missing fields are not modelled: every `Transfer` has `from`, `to` and `tokenId`. In the program, a row without `to` throws, and so does a row without `from` whose `to` is not the wallet. A row without `from` whose `to` is the wallet adds its token and the loop goes on. A row without `tokenID` adds or deletes `undefined`. Only the throwing cases appear here, as a `None` log.
