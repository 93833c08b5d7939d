/** Telling a proxy's own failures from the target's, by the text of the error. */
module ProxyErrors {
  import opened Text
  import Votes

  const ERROR_SIGNATURES := [
    "not a socks5 server", "auth", "connection reset by peer", "no connect response", "broken pipe", "eof"]

  const DEAD_SIGNATURES := ["not a socks5 server", "no acceptable auth", "authentication failed", "auth required"]

  predicate Mentions(s: string, signatures: seq<string>) {
    exists k :: 0 <= k < |signatures| && Occurs(s, signatures[k])
  }

  /** The error names the dial of this proxy itself. */
  predicate DialFailed(addr: string, message: string) {
    Occurs(message, "dial tcp " + addr)
  }

  predicate IsProxyError(addr: string, message: string) {
    DialFailed(addr, message) || Mentions(ToLower(message), ERROR_SIGNATURES)
  }

  predicate IsProxyDead(addr: string, message: string) {
    DialFailed(addr, message) || Mentions(ToLower(message), DEAD_SIGNATURES)
  }

  /** How a failed dial counts: the dead test is made only inside the error test. */
  function ClassifyError(addr: string, message: string): Votes.Answer {
    if IsProxyError(addr, message) then Votes.ProxyFault(IsProxyDead(addr, message)) else Votes.Refusal
  }

  lemma MentionsErrors(message: string)
    ensures Mentions(ToLower(message), ERROR_SIGNATURES) <==>
              || Mentioned(message, "not a socks5 server") || Mentioned(message, "auth")
              || Mentioned(message, "connection reset by peer") || Mentioned(message, "no connect response")
              || Mentioned(message, "broken pipe") || Mentioned(message, "eof")
  {
    OccursLowered(message, "not a socks5 server");
    OccursLowered(message, "auth");
    OccursLowered(message, "connection reset by peer");
    OccursLowered(message, "no connect response");
    OccursLowered(message, "broken pipe");
    OccursLowered(message, "eof");
    assert |ERROR_SIGNATURES| == 6;
    assert Occurs(ToLower(message), "not a socks5 server") ==> Occurs(ToLower(message), ERROR_SIGNATURES[0]);
    assert Occurs(ToLower(message), "auth") ==> Occurs(ToLower(message), ERROR_SIGNATURES[1]);
    assert Occurs(ToLower(message), "connection reset by peer") ==> Occurs(ToLower(message), ERROR_SIGNATURES[2]);
    assert Occurs(ToLower(message), "no connect response") ==> Occurs(ToLower(message), ERROR_SIGNATURES[3]);
    assert Occurs(ToLower(message), "broken pipe") ==> Occurs(ToLower(message), ERROR_SIGNATURES[4]);
    assert Occurs(ToLower(message), "eof") ==> Occurs(ToLower(message), ERROR_SIGNATURES[5]);
  }

  lemma MentionsDeath(message: string)
    ensures Mentions(ToLower(message), DEAD_SIGNATURES) <==>
              || Mentioned(message, "not a socks5 server") || Mentioned(message, "no acceptable auth")
              || Mentioned(message, "authentication failed") || Mentioned(message, "auth required")
  {
    OccursLowered(message, "not a socks5 server");
    OccursLowered(message, "no acceptable auth");
    OccursLowered(message, "authentication failed");
    OccursLowered(message, "auth required");
    assert |DEAD_SIGNATURES| == 4;
    assert Occurs(ToLower(message), "not a socks5 server") ==> Occurs(ToLower(message), DEAD_SIGNATURES[0]);
    assert Occurs(ToLower(message), "no acceptable auth") ==> Occurs(ToLower(message), DEAD_SIGNATURES[1]);
    assert Occurs(ToLower(message), "authentication failed") ==> Occurs(ToLower(message), DEAD_SIGNATURES[2]);
    assert Occurs(ToLower(message), "auth required") ==> Occurs(ToLower(message), DEAD_SIGNATURES[3]);
  }

  /** Each dead signature contains an error signature, at a known place. */
  lemma DeadContainsError(k: nat) returns (j: nat)
    requires k < |DEAD_SIGNATURES|
    ensures j < |ERROR_SIGNATURES| && Occurs(DEAD_SIGNATURES[k], ERROR_SIGNATURES[j])
  {
    j := if k == 0 then 0 else 1;
    assert OccursAt(DEAD_SIGNATURES[k], ERROR_SIGNATURES[j], if k == 1 then 14 else 0);
  }

  /** Whatever condemns a proxy is also a proxy error. */
  lemma DeadIsError(addr: string, message: string)
    ensures IsProxyDead(addr, message) ==> IsProxyError(addr, message)
  {
    var sl := ToLower(message);
    if Mentions(sl, DEAD_SIGNATURES) {
      var k :| 0 <= k < |DEAD_SIGNATURES| && Occurs(sl, DEAD_SIGNATURES[k]);
      var j := DeadContainsError(k);
      OccursWithin(sl, DEAD_SIGNATURES[k], ERROR_SIGNATURES[j]);
    }
  }

  /** So testing for death only inside the error test loses nothing. */
  lemma NestedTestLosesNothing(addr: string, message: string)
    ensures ClassifyError(addr, message) == Votes.ProxyFault(true) <==> IsProxyDead(addr, message)
  {
    DeadIsError(addr, message);
  }

  /** The message names the failed dial of this proxy itself. */
  ghost predicate Unreached(addr: string, message: string) {
    exists before, after :: message == before + ("dial tcp " + addr) + after
  }

  /** The message says, in any letter case, that the proxy is no server to us. */
  predicate Condemns(message: string) {
    || Mentioned(message, "not a socks5 server") || Mentioned(message, "no acceptable auth")
    || Mentioned(message, "authentication failed") || Mentioned(message, "auth required")
  }

  /** The message says, in any letter case, that the proxy gave up on the way. */
  predicate Excuses(message: string) {
    || Mentioned(message, "auth") || Mentioned(message, "connection reset by peer")
    || Mentioned(message, "no connect response") || Mentioned(message, "broken pipe") || Mentioned(message, "eof")
  }

  /**
   * For every address and message: a proxy that cannot be reached, or says one of the four condemning
   * texts, is dead; one that only gave up on the way is at fault but stays; all else speaks of the target.
   */
  lemma ClassifiedIff(addr: string, message: string)
    ensures ClassifyError(addr, message) == Votes.ProxyFault(true) <==> Unreached(addr, message) || Condemns(message)
    ensures ClassifyError(addr, message) == Votes.ProxyFault(false) <==>
              !Unreached(addr, message) && !Condemns(message) && Excuses(message)
    ensures ClassifyError(addr, message) == Votes.Refusal <==>
              !Unreached(addr, message) && !Condemns(message) && !Excuses(message)
  {
    OccursIff(message, "dial tcp " + addr);
    MentionsErrors(message);
    MentionsDeath(message);
    NestedTestLosesNothing(addr, message);
  }

  lemma RefusalCondemnsNobody(message: string)
    requires message == "connection refused"
    ensures !Condemns(message)
  {
    LetterShows(message, "not a socks5 server", 4);
    LetterShows(message, "no acceptable auth", 3);
    LetterShows(message, "authentication failed", 0);
    LetterShows(message, "auth required", 0);
  }

  lemma RefusalIsNoExcuse(message: string)
    requires message == "connection refused"
    ensures !Excuses(message)
  {
    LetterShows(message, "auth", 0);
    LetterShows(message, "connection reset by peer", 17);
    LetterShows(message, "no connect response", 14);
    LetterShows(message, "broken pipe", 0);
    LettersShow(message, "eof", 1);
  }

  lemma UnreachedSays(addr: string, message: string)
    ensures Unreached(addr, message) ==> 'l' in message
  {
    if before, after :| message == before + ("dial tcp " + addr) + after { assert message[|before| + 3] == 'l'; }
  }

  /** A proxy that hangs up is at fault and stays; a target that refuses is a refusal. */
  lemma HangUpAndRefusal(addr: string)
    ensures ClassifyError(addr, "EOF") == Votes.ProxyFault(false)
    ensures ClassifyError(addr, "connection refused") == Votes.Refusal
  {
    ClassifiedIff(addr, "EOF");
    ClassifiedIff(addr, "connection refused");
    assert MentionedAt("EOF", "eof", 0);
    UnreachedSays(addr, "EOF");
    UnreachedSays(addr, "connection refused");
    RefusalCondemnsNobody("connection refused");
    RefusalIsNoExcuse("connection refused");
  }
}
