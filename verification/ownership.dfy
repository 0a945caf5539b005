/**
 * Reconstruction of the tokens a wallet holds from its transfer log, as the `!sleepy` and
 * `!mysleepys` handlers do it: a fresh `Set` is filled by walking the events in order; an
 * event whose `to` is the wallet (ignoring case) adds its token id, otherwise one whose
 * `from` is the wallet deletes it. A JavaScript `Set` enumerates in insertion order, so the
 * set is a sequence without duplicates: adding a present id keeps its place, deleting an id
 * removes it, and an id added again later goes to the end.
 */
module Ownership {
  import opened Wrappers
  import opened Text

  /** One row of the provider's `result` array (`from`, `to`, `tokenID`). */
  datatype Transfer = Transfer(from: string, to: string, tokenId: string)

  predicate NoDuplicates(s: seq<string>) {
    forall i, j :: 0 <= i < j < |s| ==> s[i] != s[j]
  }

  /** `owned.add(t)`: a present id keeps its place, an absent one is appended. */
  function Insert(owned: seq<string>, t: string): (r: seq<string>)
    ensures forall x :: x in r <==> x in owned || x == t
    ensures owned <= r && |r| <= |owned| + 1
    ensures NoDuplicates(owned) ==> NoDuplicates(r)
  {
    if t in owned then owned else owned + [t]
  }

  /** `owned.delete(t)`: removes `t`, keeps the order of the others; absent `t` changes nothing. */
  function Delete(owned: seq<string>, t: string): (r: seq<string>)
    ensures forall x :: x in r <==> x in owned && x != t
    ensures t !in owned ==> r == owned
    ensures NoDuplicates(owned) ==> NoDuplicates(r)
  {
    if owned == [] then []
    else if owned[0] == t then Delete(owned[1..], t)
    else
      var rest := Delete(owned[1..], t);
      assert NoDuplicates(owned) ==> owned[0] !in owned[1..] && owned[0] !in rest;
      [owned[0]] + rest
  }

  /** The position of the first occurrence of `t`. */
  function IndexOf(s: seq<string>, t: string): (i: nat)
    requires t in s
    ensures i < |s| && s[i] == t && t !in s[..i]
  {
    if s[0] == t then 0 else IndexOf(s[1..], t) + 1
  }

  /** `Set.delete` keeps the other ids in their order: deleting a present id from a
      duplicate-free set cuts it out at its position and closes the gap. */
  lemma {:induction false} DeleteKeepsOrder(owned: seq<string>, t: string)
    requires NoDuplicates(owned) && t in owned
    ensures var i := IndexOf(owned, t); Delete(owned, t) == owned[..i] + owned[i + 1..]
  {
    if owned[0] == t {
      assert t !in owned[1..];
    } else {
      DeleteKeepsOrder(owned[1..], t);
      var j := IndexOf(owned[1..], t);
      assert owned[..j + 1] == [owned[0]] + owned[1..][..j];
      assert owned[j + 2..] == owned[1..][j + 1..];
    }
  }

  /** The fold's body for one event; the `to` test comes first. */
  function Step(owned: seq<string>, wallet: string, tx: Transfer): seq<string> {
    if SameIgnoringCase(tx.to, wallet) then Insert(owned, tx.tokenId)
    else if SameIgnoringCase(tx.from, wallet) then Delete(owned, tx.tokenId)
    else owned
  }

  /** The fold over `events`, in order, starting from `owned`. Every id it holds at the end
      was held at the start or delivered to the wallet by some event. */
  function Replay(owned: seq<string>, wallet: string, events: seq<Transfer>): (r: seq<string>)
    ensures NoDuplicates(owned) ==> NoDuplicates(r)
    ensures forall t :: t in r ==> (t in owned
      || exists k :: 0 <= k < |events| && events[k].tokenId == t && SameIgnoringCase(events[k].to, wallet))
    decreases |events|
  {
    if events == [] then owned
    else
      var n := |events| - 1;
      var before := Replay(owned, wallet, events[..n]);
      var r := Step(before, wallet, events[n]);
      assert forall t :: t in r ==> t in before || (t == events[n].tokenId && SameIgnoringCase(events[n].to, wallet));
      assert forall k :: 0 <= k < n ==> events[..n][k] == events[k];
      r
  }

  /** The tokens held after walking the whole log from an empty set. */
  function Owned(wallet: string, events: seq<Transfer>): (r: seq<string>)
    ensures NoDuplicates(r)
    ensures forall t :: t in r ==>
      exists k :: 0 <= k < |events| && events[k].tokenId == t && SameIgnoringCase(events[k].to, wallet)
  {
    Replay([], wallet, events)
  }

  /** The loop of the `!sleepy` and `!mysleepys` handlers. */
  method ReconstructOwned(wallet: string, events: seq<Transfer>) returns (owned: seq<string>)
    ensures owned == Owned(wallet, events)
  {
    owned := [];
    for i := 0 to |events|
      invariant owned == Replay([], wallet, events[..i])
    {
      var tx := events[i];
      assert events[..i + 1][..i] == events[..i];
      if ToLower(tx.to) == ToLower(wallet) {
        if tx.tokenId !in owned {
          owned := owned + [tx.tokenId];
        }
      } else if ToLower(tx.from) == ToLower(wallet) {
        owned := Delete(owned, tx.tokenId);
      }
    }
    assert events[..|events|] == events;
  }

  /** The event mentions token `t` and has the wallet on one of its two sides. */
  predicate Touches(tx: Transfer, wallet: string, t: string) {
    tx.tokenId == t && (SameIgnoringCase(tx.to, wallet) || SameIgnoringCase(tx.from, wallet))
  }

  /** The position of the last event of the log that touches token `t` and the wallet. */
  function LastTouch(wallet: string, events: seq<Transfer>, t: string): (r: Option<nat>)
    ensures r.Some? ==> (r.value < |events| && Touches(events[r.value], wallet, t)
      && forall j :: r.value < j < |events| ==> !Touches(events[j], wallet, t))
    ensures r.None? ==> forall j :: 0 <= j < |events| ==> !Touches(events[j], wallet, t)
    decreases |events|
  {
    if events == [] then None
    else if Touches(events[|events| - 1], wallet, t) then Some(|events| - 1)
    else
      var r := LastTouch(wallet, events[..|events| - 1], t);
      assert forall j :: 0 <= j < |events| - 1 ==> events[..|events| - 1][j] == events[j];
      r
  }

  /** Membership after the fold is decided by the last event touching the token and the
      wallet: the token is held iff that event delivered it to the wallet. Without such an
      event the token is held iff it was held at the start. */
  lemma {:induction false} ReplayDecidedByLastTouch(owned: seq<string>, wallet: string, events: seq<Transfer>, t: string)
    ensures var last := LastTouch(wallet, events, t);
      t in Replay(owned, wallet, events) <==>
        if last.Some? then SameIgnoringCase(events[last.value].to, wallet) else t in owned
    decreases |events|
  {
    if events != [] {
      var n := |events| - 1;
      ReplayDecidedByLastTouch(owned, wallet, events[..n], t);
      if !Touches(events[n], wallet, t) {
        var last := LastTouch(wallet, events[..n], t);
        if last.Some? { assert events[..n][last.value] == events[last.value]; }
      }
    }
  }

  /** Last-touch membership, stated over the log itself: `t` is owned iff some event
      delivers `t` to the wallet and no later event mentions `t` with the wallet on either side. */
  lemma OwnedIffLastTouchReceives(wallet: string, events: seq<Transfer>, t: string)
    ensures t in Owned(wallet, events) <==>
      exists k :: 0 <= k < |events| && events[k].tokenId == t && SameIgnoringCase(events[k].to, wallet)
        && forall j :: k < j < |events| ==> !Touches(events[j], wallet, t)
  {
    ReplayDecidedByLastTouch([], wallet, events, t);
    var last := LastTouch(wallet, events, t);
    if k :| (0 <= k < |events| && events[k].tokenId == t && SameIgnoringCase(events[k].to, wallet)
             && forall j :: k < j < |events| ==> !Touches(events[j], wallet, t)) {
      assert Touches(events[k], wallet, t);
      assert last.Some? && last.value == k;
    }
  }

  /** A log in which no event has the wallet on either side changes nothing. */
  lemma {:induction false} ForeignEventsChangeNothing(owned: seq<string>, wallet: string, events: seq<Transfer>)
    requires forall k :: 0 <= k < |events| ==>
      !SameIgnoringCase(events[k].to, wallet) && !SameIgnoringCase(events[k].from, wallet)
    ensures Replay(owned, wallet, events) == owned
    decreases |events|
  {
    if events != [] {
      var n := |events| - 1;
      assert forall k :: 0 <= k < n ==> events[..n][k] == events[k];
      ForeignEventsChangeNothing(owned, wallet, events[..n]);
    }
  }

  /** If no event touches the wallet, nothing is owned; in particular an empty log owns nothing. */
  lemma NothingOwnedWithoutWalletEvents(wallet: string, events: seq<Transfer>)
    requires forall k :: 0 <= k < |events| ==>
      !SameIgnoringCase(events[k].to, wallet) && !SameIgnoringCase(events[k].from, wallet)
    ensures Owned(wallet, events) == []
  {
    ForeignEventsChangeNothing([], wallet, events);
  }

  /** Walking `a + b` is walking `a` and then `b` from where `a` left off. */
  lemma {:induction false} ReplayAppend(owned: seq<string>, wallet: string, a: seq<Transfer>, b: seq<Transfer>)
    ensures Replay(owned, wallet, a + b) == Replay(Replay(owned, wallet, a), wallet, b)
    decreases |b|
  {
    if b == [] {
      assert a + b == a;
    } else {
      var n := |b| - 1;
      assert (a + b)[..|a + b| - 1] == a + b[..n];
      assert (a + b)[|a + b| - 1] == b[n];
      ReplayAppend(owned, wallet, a, b[..n]);
    }
  }

  /** An event that has the wallet on neither side can be dropped from anywhere in the log. */
  lemma ForeignEventIgnored(wallet: string, a: seq<Transfer>, e: Transfer, b: seq<Transfer>)
    requires !SameIgnoringCase(e.to, wallet) && !SameIgnoringCase(e.from, wallet)
    ensures Owned(wallet, a + [e] + b) == Owned(wallet, a + b)
  {
    ReplayAppend([], wallet, a + [e], b);
    ReplayAppend([], wallet, a, b);
    assert (a + [e])[..|a|] == a;
  }

  /** Applying an event twice in a row is applying it once: adding a present id and
      deleting an absent one change nothing. */
  lemma StepIdempotent(owned: seq<string>, wallet: string, e: Transfer)
    ensures Step(Step(owned, wallet, e), wallet, e) == Step(owned, wallet, e)
  {
  }

  /** A duplicated event anywhere in the log has the effect of a single one. */
  lemma RepeatedEventIgnored(wallet: string, a: seq<Transfer>, e: Transfer, b: seq<Transfer>)
    ensures Owned(wallet, a + [e, e] + b) == Owned(wallet, a + [e] + b)
  {
    ReplayAppend([], wallet, a + [e, e], b);
    ReplayAppend([], wallet, a + [e], b);
    var r := Replay([], wallet, a);
    assert (a + [e, e])[..|a| + 1] == a + [e];
    assert (a + [e])[..|a|] == a;
    StepIdempotent(r, wallet, e);
  }

  /** Two logs that differ at most in the ASCII case of their addresses. */
  predicate SameUpToCase(x: seq<Transfer>, y: seq<Transfer>) {
    |x| == |y| && forall k :: 0 <= k < |x| ==>
      x[k].tokenId == y[k].tokenId
      && SameIgnoringCase(x[k].to, y[k].to) && SameIgnoringCase(x[k].from, y[k].from)
  }

  /** The fold sees addresses only up to ASCII case: changing the case of the wallet or
      of any address in the log does not change the result. */
  lemma {:induction false} ReplayIgnoresCase(owned: seq<string>, w1: string, w2: string, x: seq<Transfer>, y: seq<Transfer>)
    requires SameIgnoringCase(w1, w2) && SameUpToCase(x, y)
    ensures Replay(owned, w1, x) == Replay(owned, w2, y)
    decreases |x|
  {
    if x != [] {
      var n := |x| - 1;
      assert SameUpToCase(x[..n], y[..n]) by {
        forall k | 0 <= k < n ensures x[..n][k] == x[k] && y[..n][k] == y[k] { }
      }
      ReplayIgnoresCase(owned, w1, w2, x[..n], y[..n]);
    }
  }

  /** A transfer to the wallet adds its token whatever its `from` says, so a transfer from
      the wallet to itself adds the token; everything held before stays held. */
  lemma ReceiveWins(owned: seq<string>, wallet: string, e: Transfer)
    requires SameIgnoringCase(e.to, wallet)
    ensures e.tokenId in Step(owned, wallet, e)
    ensures owned <= Step(owned, wallet, e)
  {
  }

  /** Order matters: receiving then sending a token leaves it out; sending then receiving
      leaves it in, whatever was held before. */
  lemma OrderMatters(owned: seq<string>, wallet: string, t: string, other1: string, other2: string)
    requires !SameIgnoringCase(other1, wallet) && !SameIgnoringCase(other2, wallet)
    ensures var receive := Transfer(other1, wallet, t);
            var send := Transfer(wallet, other2, t);
            t !in Replay(owned, wallet, [receive, send]) && t in Replay(owned, wallet, [send, receive])
  {
    var receive := Transfer(other1, wallet, t);
    var send := Transfer(wallet, other2, t);
    assert [receive, send][..1] == [receive] && [send, receive][..1] == [send];
    assert [receive][..0] == [] && [send][..0] == [];
  }
}
