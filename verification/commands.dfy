/**
 * Turning a chat message into a command: the `!` prefix and bot filter, the
 * `slice(1).trim().split(/ +/)` tokenisation with the first word lower-cased, and the
 * dispatch order of the handler (`linkwallet`, `sleepy`, `mysleepys`, `randomsleepy`,
 * `awareness`, then any other word starting with `sleepy`).
 */
module Commands {
  import opened Wrappers
  import opened Text
  import opened Pattern

  datatype Message = Message(content: string, authorId: string, authorIsBot: bool)

  /** The command word and the words after it. */
  datatype Invocation = Invocation(command: string, args: seq<string>)

  /** The message is handled only if it starts with `!` and its author is not a bot. */
  predicate IsHandled(m: Message) {
    |m.content| > 0 && m.content[0] == '!' && !m.authorIsBot
  }

  /** The text after the `!`, trimmed. */
  function Body(m: Message): string
    requires |m.content| > 0
  {
    Trim(m.content[1..])
  }

  /** The words of a trimmed body: the first is a prefix of the body ending at a space or at
      the end, and every later one is non-empty. */
  lemma WordsOfTrimmed(body: string)
    requires body == [] || (!IsTrimmable(body[0]) && !IsTrimmable(body[|body| - 1]))
    ensures var words := SplitOnSpaces(body);
      words[0] <= body && (|words[0]| < |body| ==> body[|words[0]|] == ' ')
      && forall k :: 1 <= k < |words| ==> words[k] != ""
  {
    FirstPieceIsFirstWord(body);
    PiecesNonEmpty(body);
  }

  /**
   * Splits a handled message into its lower-cased command word and its arguments. The
   * command is the lower-cased first word of the trimmed body: it holds no space and no
   * upper-case ASCII letter, and the body begins with it followed by a space or its end.
   * The arguments are the remaining words: non-empty, without spaces, and the first word
   * and the arguments joined by single spaces give the body with its space runs shrunk.
   */
  function Parse(m: Message): (r: Option<Invocation>)
    ensures r.Some? <==> IsHandled(m)
    ensures r.Some? ==> |r.value.command| <= |Body(m)|
    ensures r.Some? ==> r.value.command == ToLower(Body(m)[..|r.value.command|])
    ensures r.Some? ==> ' ' !in Body(m)[..|r.value.command|]
    ensures r.Some? ==> |r.value.command| < |Body(m)| ==> Body(m)[|r.value.command|] == ' '
    ensures r.Some? ==> forall k :: 0 <= k < |r.value.args| ==> r.value.args[k] != "" && ' ' !in r.value.args[k]
    ensures r.Some? ==>
      JoinWithSpace([Body(m)[..|r.value.command|]] + r.value.args) == CollapseSpaces(Body(m))
  {
    if !IsHandled(m) then None
    else
      var body := Body(m);
      var words := SplitOnSpaces(body);
      WordsOfTrimmed(body);
      assert words[0] == body[..|words[0]|];
      assert forall k :: 0 <= k < |words| - 1 ==> words[1..][k] == words[k + 1];
      SplitJoinIsCollapse(body);
      assert [body[..|words[0]|]] + words[1..] == words;
      Some(Invocation(ToLower(words[0]), words[1..]))
  }

  /** What the handler does with a command word, in the order it tests them. */
  datatype Command =
    | LinkWallet(address: Option<string>)
    | ShowRandomOwned
    | ListOwned
    | ShowRandom
    | ShowRandomWithFact
    | ShowNumbered(suffix: string)
    | NotACommand

  /** The prefix of the `!sleepyN` form. */
  const SleepyPrefix: string := "sleepy"

  /**
   * The dispatch of the handler. `linkwallet` takes its first argument (if any) as the
   * address; any command word that starts with `sleepy` and is neither `sleepy` nor
   * `mysleepys` is the `!sleepyN` form with the rest of the word as its suffix.
   */
  function Classify(inv: Invocation): (c: Command)
    ensures c.LinkWallet? <==> inv.command == "linkwallet"
    ensures c.LinkWallet? ==> (c.address.Some? <==> |inv.args| > 0)
    ensures c.LinkWallet? && c.address.Some? ==> c.address.value == inv.args[0]
    ensures c.ShowRandomOwned? <==> inv.command == "sleepy"
    ensures c.ListOwned? <==> inv.command == "mysleepys"
    ensures c.ShowRandom? <==> inv.command == "randomsleepy"
    ensures c.ShowRandomWithFact? <==> inv.command == "awareness"
    ensures c.ShowNumbered? <==> SleepyPrefix < inv.command
    ensures c.ShowNumbered? ==> c.suffix != [] && inv.command == SleepyPrefix + c.suffix
  {
    var cmd := inv.command;
    assert !(SleepyPrefix <= "linkwallet") && !(SleepyPrefix <= "mysleepys")
      && !(SleepyPrefix <= "randomsleepy") && !(SleepyPrefix <= "awareness") by {
      assert "linkwallet"[0] != 's' && "mysleepys"[0] != 's' && "randomsleepy"[0] != 's' && "awareness"[0] != 's';
    }
    if cmd == "linkwallet" then
      LinkWallet(if |inv.args| > 0 then Some(inv.args[0]) else None)
    else if cmd == "sleepy" then ShowRandomOwned
    else if cmd == "mysleepys" then ListOwned
    else if cmd == "randomsleepy" then ShowRandom
    else if cmd == "awareness" then ShowRandomWithFact
    else if SleepyPrefix <= cmd && cmd != "sleepy" && cmd != "mysleepys" then
      assert cmd == SleepyPrefix + cmd[|SleepyPrefix|..];
      ShowNumbered(cmd[|SleepyPrefix|..])
    else NotACommand
  }

  /** The token id of the `!sleepyN` form: the suffix, accepted iff it is all ASCII digits.
      There is no range check: leading zeros and numbers beyond the collection pass. */
  function NumberedTokenId(suffix: string): (r: Option<string>)
    ensures r.Some? <==> suffix != [] && AllDigits(suffix)
    ensures r.Some? ==> r.value == suffix
  {
    if IsTokenNumber(suffix) then Some(suffix) else None
  }
}
