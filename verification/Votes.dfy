/** Votes cast by proxies on one host:port, and the outcome decided from a tally of them. */
module Votes {
  import opened Sequences

  /** What one dial through a proxy tells the scan. `dead` is set when the fault is the proxy's own. */
  datatype Answer =
    | Connected(service: string, version: string, banner: string)
    | ProxyFault(dead: bool)
    | Refusal

  /** An answer together with the rotation offset of the proxy that gave it. */
  datatype Vote = Vote(at: nat, answer: Answer)

  datatype Verdict = Unreachable | Open | Refuted | Unconfirmed

  datatype PortOutcome = PortOutcome(
    host: string, port: int, verdict: Verdict, confirmations: nat, quorum: nat,
    labels: seq<string>, banner: string, service: string, version: string, refutedBy: string)

  /** The zero value that an outcome slot holds until its job writes it. */
  const ZERO_OUTCOME := PortOutcome("", 0, Unreachable, 0, 0, [], "", "", "", "")

  function DecideQuorum(confirmations: int, quorum: int, refuted: bool): Verdict {
    if refuted then Refuted
    else if confirmations >= quorum then Open
    else if confirmations > 0 then Unconfirmed
    else Unreachable
  }

  function Opens(votes: seq<Vote>): nat {
    if votes == [] then 0
    else Opens(votes[..|votes| - 1]) + if votes[|votes| - 1].answer.Connected? then 1 else 0
  }

  function Faults(votes: seq<Vote>): nat {
    if votes == [] then 0
    else Faults(votes[..|votes| - 1]) + if votes[|votes| - 1].answer.ProxyFault? then 1 else 0
  }

  predicate Refused(votes: seq<Vote>) {
    exists v :: v in votes && v.answer.Refusal?
  }

  /** The offsets of the proxies that voted, in tally order. */
  function Offsets(votes: seq<Vote>): seq<nat> {
    seq(|votes|, j requires 0 <= j < |votes| => votes[j].at)
  }

  /** The offsets of the proxies that voted open, in tally order. */
  function Openers(votes: seq<Vote>): seq<nat> {
    if votes == [] then []
    else Openers(votes[..|votes| - 1]) +
         if votes[|votes| - 1].answer.Connected? then [votes[|votes| - 1].at] else []
  }

  /** The offset of the last proxy that refused, if any did. */
  function LastRefuser(votes: seq<Vote>): Option<nat> {
    if votes == [] then None
    else if votes[|votes| - 1].answer.Refusal? then Some(votes[|votes| - 1].at)
    else LastRefuser(votes[..|votes| - 1])
  }

  /** What each open vote learned about the service, in tally order. */
  function Learned(votes: seq<Vote>): seq<Answer> {
    if votes == [] then []
    else Learned(votes[..|votes| - 1]) +
         if votes[|votes| - 1].answer.Connected? then [votes[|votes| - 1].answer] else []
  }

  function FirstNonEmpty(texts: seq<string>): string {
    if texts == [] then "" else if texts[0] != "" then texts[0] else FirstNonEmpty(texts[1..])
  }

  lemma {:induction false} TallyAppend(votes: seq<Vote>, v: Vote)
    ensures Opens(votes + [v]) == Opens(votes) + if v.answer.Connected? then 1 else 0
    ensures Faults(votes + [v]) == Faults(votes) + if v.answer.ProxyFault? then 1 else 0
    ensures Refused(votes + [v]) <==> Refused(votes) || v.answer.Refusal?
    ensures Openers(votes + [v]) == Openers(votes) + if v.answer.Connected? then [v.at] else []
    ensures Learned(votes + [v]) == Learned(votes) + if v.answer.Connected? then [v.answer] else []
    ensures LastRefuser(votes + [v]) == if v.answer.Refusal? then Some(v.at) else LastRefuser(votes)
    ensures Offsets(votes + [v]) == Offsets(votes) + [v.at]
  {
    assert (votes + [v])[..|votes|] == votes;
    assert (votes + [v])[|votes|] == v;
    if Refused(votes) {
      var x :| x in votes && x.answer.Refusal?;
      assert x in votes + [v];
    }
    if v.answer.Refusal? { assert v in votes + [v]; }
  }

  /** A tally is a sum over its parts: votes joined in one round add their own counts. */
  lemma {:induction false} TallyConcat(a: seq<Vote>, b: seq<Vote>)
    ensures Opens(a + b) == Opens(a) + Opens(b)
    ensures Faults(a + b) == Faults(a) + Faults(b)
    ensures Refused(a + b) <==> Refused(a) || Refused(b)
    ensures Offsets(a + b) == Offsets(a) + Offsets(b)
    decreases |b|
  {
    if b == [] {
      assert a + b == a;
    } else {
      var k := |b| - 1;
      assert a + b == (a + b[..k]) + [b[k]] && b == b[..k] + [b[k]];
      TallyConcat(a, b[..k]);
      TallyAppend(a + b[..k], b[k]);
      TallyAppend(b[..k], b[k]);
    }
  }

  /** Every vote is counted once: a tally without a refusal is its opens and its faults. */
  lemma {:induction false} TallyTotal(votes: seq<Vote>)
    ensures Opens(votes) + Faults(votes) <= |votes|
    ensures !Refused(votes) ==> Opens(votes) + Faults(votes) == |votes|
    ensures |Openers(votes)| == Opens(votes)
    ensures LastRefuser(votes).Some? <==> Refused(votes)
  {
    if votes != [] {
      var k := |votes| - 1;
      TallyTotal(votes[..k]);
      TallyAppend(votes[..k], votes[k]);
      assert votes == votes[..k] + [votes[k]];
    }
  }

  /** The openers are offsets of open votes, and distinct when the voters are. */
  lemma {:induction false} OpenersVoted(votes: seq<Vote>)
    requires NoDup(Offsets(votes))
    ensures NoDup(Openers(votes))
    ensures forall k :: k in Openers(votes) <==> exists v :: v in votes && v.at == k && v.answer.Connected?
  {
    if votes != [] {
      var last := |votes| - 1;
      var init, v := votes[..last], votes[last];
      assert votes == init + [v];
      TallyAppend(init, v);
      assert Offsets(init) == Offsets(votes)[..last];
      OpenersVoted(init);
      forall j: nat | j < last ensures Offsets(init)[j] != v.at {
        assert Offsets(votes)[j] != Offsets(votes)[last];
      }
      forall k | k in Openers(init) ensures k != v.at {
        var u :| u in init && u.at == k;
        var j :| 0 <= j < last && init[j] == u;
        assert Offsets(init)[j] == k;
      }
      NoDupAppend(Openers(init), v.at);
      assert v in votes;
      forall k ensures k in Openers(votes) <==> exists u :: u in votes && u.at == k && u.answer.Connected? {
        if k in Openers(votes) {
          if k in Openers(init) {
            var u :| u in init && u.at == k && u.answer.Connected?;
            assert u in votes;
          }
        }
        if u :| u in votes && u.at == k && u.answer.Connected? {
          if u in init { assert k in Openers(init); }
        }
      }
    }
  }

  /** Distinct faulty voters drawn from a set cannot outnumber it. */
  lemma {:induction false} FaultsBounded(votes: seq<Vote>, s: set<nat>)
    requires NoDup(Offsets(votes))
    requires forall v :: v in votes && v.answer.ProxyFault? ==> v.at in s
    ensures Faults(votes) <= |s|
  {
    if votes != [] {
      var last := |votes| - 1;
      var init, v := votes[..last], votes[last];
      assert Offsets(init) == Offsets(votes)[..last];
      if v.answer.ProxyFault? {
        forall u | u in init && u.answer.ProxyFault? ensures u.at in s - {v.at} {
          var j :| 0 <= j < last && init[j] == u;
          assert Offsets(votes)[j] != Offsets(votes)[last];
          assert u in votes;
        }
        FaultsBounded(init, s - {v.at});
        assert v in votes;
      } else {
        FaultsBounded(init, s);
      }
    }
  }

  lemma {:induction false} FirstNonEmptyAppend(texts: seq<string>, t: string)
    ensures FirstNonEmpty(texts + [t]) == if FirstNonEmpty(texts) != "" then FirstNonEmpty(texts) else t
  {
    if texts == [] {
      assert texts + [t] == [t];
    } else {
      FirstNonEmptyAppend(texts[1..], t);
      assert (texts + [t])[1..] == texts[1..] + [t];
    }
  }

  /** The text kept is the first that is not empty, and "" only when all are. */
  lemma {:induction false} FirstNonEmptyIsFirst(texts: seq<string>)
    ensures FirstNonEmpty(texts) == "" <==> forall j :: 0 <= j < |texts| ==> texts[j] == ""
    ensures FirstNonEmpty(texts) != "" ==>
              exists j :: 0 <= j < |texts| && texts[j] == FirstNonEmpty(texts)
                          && forall m :: 0 <= m < j ==> texts[m] == ""
  {
    if texts != [] && texts[0] == "" {
      FirstNonEmptyIsFirst(texts[1..]);
      if FirstNonEmpty(texts) != "" {
        var j :| 0 <= j < |texts[1..]| && texts[1..][j] == FirstNonEmpty(texts)
                 && forall m :: 0 <= m < j ==> texts[1..][m] == "";
        assert texts[j + 1] == FirstNonEmpty(texts);
        forall m | 0 <= m < j + 1 ensures texts[m] == "" {
          if m > 0 { assert texts[1..][m - 1] == ""; }
        }
      } else {
        forall j | 0 <= j < |texts| ensures texts[j] == "" {
          if j > 0 { assert texts[1..][j - 1] == ""; }
        }
      }
    }
  }

  /** The refuter named last did refuse, and every later vote did not. */
  lemma {:induction false} LastRefuserIsLast(votes: seq<Vote>) returns (j: nat)
    requires Refused(votes)
    ensures j < |votes| && votes[j].answer.Refusal? && LastRefuser(votes) == Some(votes[j].at)
    ensures forall m :: j < m < |votes| ==> !votes[m].answer.Refusal?
  {
    j := |votes| - 1;
    if !votes[j].answer.Refusal? {
      var init, last := votes[..j], votes[j];
      assert votes == init + [last];
      j := LastRefuserIsLast(init);
      assert votes[j] == init[j];
      assert forall m :: 0 <= m < |init| ==> votes[m] == init[m];
    }
  }

  /** The text kept out of several: the first that is not empty, or "" when all are. */
  ghost predicate FirstKept(t: string, texts: seq<string>) {
    if t == "" then forall j :: 0 <= j < |texts| ==> texts[j] == ""
    else exists j :: 0 <= j < |texts| && texts[j] == t && forall m :: 0 <= m < j ==> texts[m] == ""
  }

  /** What was learned was learned from the openers, in the same order. */
  lemma {:induction false} LearnedAtOpeners(votes: seq<Vote>)
    ensures |Learned(votes)| == |Openers(votes)|
    ensures forall m :: 0 <= m < |Learned(votes)| ==>
              Learned(votes)[m].Connected? && Vote(Openers(votes)[m], Learned(votes)[m]) in votes
  {
    if votes != [] {
      var init, last := votes[..|votes| - 1], votes[|votes| - 1];
      assert votes == init + [last];
      LearnedAtOpeners(init);
    }
  }
}
