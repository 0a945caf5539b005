/**
 * The message handler of the bot and the one piece of state it updates in place: the
 * in-memory `walletLinks` map from a chat user id to the wallet address they linked.
 * Network calls are replaced by their outcomes, passed in: the transfer log the provider
 * returned for the linked wallet (`None` when the fetch or the JSON decoding threw, or the
 * loop threw on a row it could not read), and the value `Math.random()` drew.
 */
module Bot {
  import opened Wrappers
  import opened Text
  import opened Pattern
  import opened Ownership
  import opened Selection
  import opened Commands

  /** What the handler answers. The texts are left out; `ShowToken` is the token view
      (image and rank, or the text-only fallback), optionally with an awareness fact. */
  datatype Reply =
    | NoReply
    | InvalidAddress
    | WalletLinked
    | LinkWalletFirst
    | FetchFailed
    | NothingOwned
    | ShowToken(tokenId: string, withFact: bool)
    | ListTokens(tokenIds: seq<string>)
    | InvalidTokenNumber

  /** `walletLinks[userId]` under the test `!wallet`: a missing entry and an empty
      string are both treated as "not linked". */
  function LinkedWallet(links: map<string, string>, userId: string): (r: Option<string>)
    ensures r.Some? <==> userId in links && links[userId] != ""
    ensures r.Some? ==> r.value == links[userId]
  {
    if userId in links && links[userId] != "" then Some(links[userId]) else None
  }

  /** The answer to `!sleepy`: link first, fetch failure, nothing owned, or one owned token
      at the drawn position. The empty case is answered before any pick. */
  predicate RandomOwnedReply(links: map<string, string>, userId: string,
                             log: Option<seq<Transfer>>, draw: Draw, reply: Reply)
  {
    match LinkedWallet(links, userId)
    case None => reply == LinkWalletFirst
    case Some(wallet) =>
      match log
      case None => reply == FetchFailed
      case Some(events) =>
        var owned := Owned(wallet, events);
        if owned == [] then reply == NothingOwned
        else reply == ShowToken(PickRandom(owned, draw), false)
  }

  /** The answer to `!mysleepys`: link first, fetch failure, nothing owned, or the first
      ten owned tokens in insertion order. */
  predicate ListOwnedReply(links: map<string, string>, userId: string,
                           log: Option<seq<Transfer>>, reply: Reply)
  {
    match LinkedWallet(links, userId)
    case None => reply == LinkWalletFirst
    case Some(wallet) =>
      match log
      case None => reply == FetchFailed
      case Some(events) =>
        var owned := Owned(wallet, events);
        if owned == [] then reply == NothingOwned else reply == ListTokens(FirstTen(owned))
  }

  /** A token shown by `!sleepy` is one the wallet holds, delivered to it by the last event
      of the log that mentions it with the wallet on either side. */
  lemma RandomOwnedShowsHeldToken(links: map<string, string>, userId: string,
                                  events: seq<Transfer>, draw: Draw, reply: Reply)
    requires RandomOwnedReply(links, userId, Some(events), draw, reply) && reply.ShowToken?
    ensures LinkedWallet(links, userId).Some?
    ensures var wallet := LinkedWallet(links, userId).value;
      exists k :: 0 <= k < |events| && events[k].tokenId == reply.tokenId
        && SameIgnoringCase(events[k].to, wallet)
        && forall j :: k < j < |events| ==> !Touches(events[j], wallet, reply.tokenId)
  {
    var wallet := LinkedWallet(links, userId).value;
    OwnedIffLastTouchReceives(wallet, events, reply.tokenId);
  }

  /** `!mysleepys` lists at most ten distinct held tokens, the first ones in insertion
      order, and lists all of them when there are at most ten. */
  lemma ListOwnedListsHeldTokens(links: map<string, string>, userId: string,
                                 events: seq<Transfer>, reply: Reply)
    requires ListOwnedReply(links, userId, Some(events), reply) && reply.ListTokens?
    ensures LinkedWallet(links, userId).Some?
    ensures var owned := Owned(LinkedWallet(links, userId).value, events);
      1 <= |reply.tokenIds| <= ListingLimit && reply.tokenIds <= owned
      && NoDuplicates(reply.tokenIds)
      && (|owned| <= ListingLimit ==> reply.tokenIds == owned)
  {
  }

  class SleepyBot {
    /** User id to linked wallet address, as loaded from the saved file. */
    var walletLinks: map<string, string>

    constructor (saved: map<string, string>)
      ensures walletLinks == saved
    {
      walletLinks := saved;
    }

    /** `!linkwallet <address>`: stores the address for the user iff it is a wallet address;
        every other user's entry stays as it was. */
    method LinkWallet(userId: string, address: Option<string>) returns (reply: Reply)
      modifies this
      ensures reply == WalletLinked || reply == InvalidAddress
      ensures reply == WalletLinked <==> address.Some? && IsWalletAddress(address.value)
      ensures reply == WalletLinked ==> walletLinks == old(walletLinks)[userId := address.value]
      ensures reply == InvalidAddress ==> walletLinks == old(walletLinks)
      ensures forall u :: u != userId ==> LinkedWallet(walletLinks, u) == LinkedWallet(old(walletLinks), u)
    {
      if address.None? || !IsWalletAddress(address.value) {
        return InvalidAddress;
      }
      walletLinks := walletLinks[userId := address.value];
      reply := WalletLinked;
    }

    /** `!sleepy`: one random token of those the linked wallet holds. */
    method ShowRandomOwned(userId: string, log: Option<seq<Transfer>>, draw: Draw) returns (reply: Reply)
      ensures RandomOwnedReply(walletLinks, userId, log, draw, reply)
    {
      var wallet := LinkedWallet(walletLinks, userId);
      if wallet.None? {
        return LinkWalletFirst;
      }
      if log.None? {
        return FetchFailed;
      }
      var owned := ReconstructOwned(wallet.value, log.value);
      if |owned| == 0 {
        return NothingOwned;
      }
      var tokenArray := owned;
      reply := ShowToken(tokenArray[ScaledIndex(draw, |tokenArray|)], false);
    }

    /** `!mysleepys`: the first ten tokens the linked wallet holds. */
    method ListOwned(userId: string, log: Option<seq<Transfer>>) returns (reply: Reply)
      ensures ListOwnedReply(walletLinks, userId, log, reply)
    {
      var wallet := LinkedWallet(walletLinks, userId);
      if wallet.None? {
        return LinkWalletFirst;
      }
      if log.None? {
        return FetchFailed;
      }
      var tokenArray := ReconstructOwned(wallet.value, log.value);
      if |tokenArray| == 0 {
        return NothingOwned;
      }
      reply := ListTokens(FirstTen(tokenArray));
    }

    /**
     * The `messageCreate` handler. Only `!linkwallet` with a valid address changes the
     * wallet links; every command answers as its own handler does, and a message that is
     * not handled or names no command gets no answer.
     */
    method Handle(m: Message, log: Option<seq<Transfer>>, draw: Draw) returns (reply: Reply)
      modifies this
      ensures !IsHandled(m) ==> reply == NoReply && walletLinks == old(walletLinks)
      ensures IsHandled(m) ==>
        match Classify(Parse(m).value)
        case LinkWallet(address) =>
          (reply == WalletLinked <==> address.Some? && IsWalletAddress(address.value))
          && (reply == WalletLinked || reply == InvalidAddress)
          && walletLinks == (if reply == WalletLinked then old(walletLinks)[m.authorId := address.value]
                             else old(walletLinks))
        case ShowRandomOwned =>
          RandomOwnedReply(old(walletLinks), m.authorId, log, draw, reply) && walletLinks == old(walletLinks)
        case ListOwned =>
          ListOwnedReply(old(walletLinks), m.authorId, log, reply) && walletLinks == old(walletLinks)
        case ShowRandom =>
          reply == ShowToken(DecimalString(RandomTokenNumber(draw)), false) && walletLinks == old(walletLinks)
        case ShowRandomWithFact =>
          reply == ShowToken(DecimalString(RandomTokenNumber(draw)), true) && walletLinks == old(walletLinks)
        case ShowNumbered(suffix) =>
          reply == (if suffix != [] && AllDigits(suffix) then ShowToken(suffix, false) else InvalidTokenNumber)
          && walletLinks == old(walletLinks)
        case NotACommand =>
          reply == NoReply && walletLinks == old(walletLinks)
    {
      var invocation := Parse(m);
      if invocation.None? {
        return NoReply;
      }
      var command := Classify(invocation.value);
      match command
      case LinkWallet(address) =>
        reply := LinkWallet(m.authorId, address);
      case ShowRandomOwned =>
        reply := ShowRandomOwned(m.authorId, log, draw);
      case ListOwned =>
        reply := ListOwned(m.authorId, log);
      case ShowRandom =>
        reply := ShowToken(DecimalString(RandomTokenNumber(draw)), false);
      case ShowRandomWithFact =>
        reply := ShowToken(DecimalString(RandomTokenNumber(draw)), true);
      case ShowNumbered(suffix) =>
        var tokenId := NumberedTokenId(suffix);
        reply := if tokenId.Some? then ShowToken(tokenId.value, false) else InvalidTokenNumber;
      case NotACommand =>
        reply := NoReply;
    }
  }
}
