/** The lifecycle of Codex certificates: start, challenge, complete and cancel, one after
    another, each allowed to fail or to be stopped between any two writes. */
module Certificates {
  import opened Options

  datatype State = Pending | Passed | Failed | Stale | Expired

  /** `fingerprints` are the values that tie a certificate to one installation; `profiles`
      is the number of receipts; the challenge digest stands for what it is made from. */
  datatype Certificate = Certificate(
    state: State, created: int, expires: int, fingerprints: seq<string>,
    identity: State, cli: State, desktop: State, profiles: nat, cleanup: bool, nonce: string, proof: string)

  datatype Challenge = Challenge(nonce: string, proof: string, usedAt: Option<int>, process: string)

  const REQUIRED_PROFILES := 4
  const THIRTY_DAYS := 30 * 24 * 3600

  predicate Complete(c: Certificate) {
    c.identity.Passed? && c.cli.Passed? && c.desktop.Passed? && c.profiles == REQUIRED_PROFILES && c.cleanup
  }

  function EffectiveState(c: Certificate, now: int, current: seq<string>): State {
    if c.state.Failed? then Failed
    else if now >= c.expires then Expired
    else if c.fingerprints != current then Stale
    else if Complete(c) then Passed
    else Pending
  }

  function Sealed(c: Certificate): State {
    if Complete(c) then Passed
    else if c.identity.Failed? || c.cli.Failed? || c.desktop.Failed? || !c.cleanup then Failed
    else Pending
  }

  /** A certificate whose Desktop evidence has been seen, when the clock is read again. */
  function Seen(c: Certificate, later: int): Certificate {
    c.(desktop := Passed,
       state := if c.expires <= later then Expired else if c.profiles == 4 then Passed else Pending)
  }

  predicate IsHex(c: char) {
    '0' <= c <= '9' || 'a' <= c <= 'f' || 'A' <= c <= 'F'
  }

  predicate IsProcess(receipt: string) {
    |receipt| == 64 && forall i | 0 <= i < 64 :: IsHex(receipt[i])
  }

  lemma ProcessIs(receipt: string)
    ensures IsProcess(receipt) <==> |receipt| == 64 && forall c | c in receipt :: c in "0123456789abcdefABCDEF"
  {
    var digits := "0123456789abcdefABCDEF";
    forall c: char ensures IsHex(c) <==> c in digits { HexIs(c); }
    if IsProcess(receipt) {
      forall c | c in receipt ensures c in digits { var i :| 0 <= i < |receipt| && receipt[i] == c; }
    }
    if |receipt| == 64 && forall c | c in receipt :: c in digits {
      forall i | 0 <= i < 64 ensures IsHex(receipt[i]) { assert receipt[i] in receipt; }
    }
  }

  lemma HexIs(c: char)
    ensures IsHex(c) <==> c in "0123456789abcdefABCDEF"
  {
    var digits := "0123456789abcdefABCDEF";
    if '0' <= c <= '9' { assert digits[c as int - '0' as int] == c; }
    if 'a' <= c <= 'f' { assert digits[10 + c as int - 'a' as int] == c; }
    if 'A' <= c <= 'F' { assert digits[16 + c as int - 'A' as int] == c; }
  }

  /** The state of a certificate at a time, for an installation: expiry before staleness,
      and a failure before both. */
  lemma EffectiveIs(c: Certificate, now: int, current: seq<string>)
    ensures var state := EffectiveState(c, now, current);
            && (state.Failed? <==> c.state.Failed?)
            && (state.Expired? <==> !c.state.Failed? && c.expires <= now)
            && (state.Stale? <==> !c.state.Failed? && now < c.expires && c.fingerprints != current)
            && (state.Passed? <==>
                  && !c.state.Failed? && now < c.expires && c.fingerprints == current
                  && c.identity == c.cli == c.desktop == Passed && c.profiles == 4 && c.cleanup)
  {
  }

  /** What became of a file write: nothing, in place though an error was reported, done. */
  datatype Write = Lost | Late | Done

  /** Which files of a challenge were removed. */
  datatype Erase = Erase(challenge: bool, marker: bool)

  /** Every stored certificate, and the challenges consumed so far. */
  datatype Moment = Moment(certs: map<string, Certificate>, consumed: set<string>)

  /** A pass was earned: all three gates, every profile, the cleanup, and a consumed
      challenge. */
  ghost predicate Earned(m: Moment) {
    forall id | id in m.certs ::
      && (m.certs[id].state.Passed? ==> Complete(m.certs[id]))
      && (m.certs[id].desktop.Passed? ==> id in m.consumed)
  }

  /** What a command may make of a stored certificate: a failure is final, a pass can
      only be canceled, and nothing that start established is ever rewritten. */
  predicate Allowed(c: Certificate, d: Certificate) {
    && (c.state.Failed? ==> d.state.Failed?)
    && (c.state.Passed? ==> d == c || d.state.Failed?)
    && d == c.(state := d.state, desktop := d.desktop, cleanup := d.cleanup)
    && (d.cleanup == c.cleanup || d.state.Failed?)
  }

  ghost predicate Lawful(m: Moment, n: Moment) {
    m.consumed <= n.consumed && forall id | id in m.certs :: id in n.certs && Allowed(m.certs[id], n.certs[id])
  }

  ghost predicate History(past: seq<Moment>) {
    && (forall i | 0 <= i < |past| :: Earned(past[i]))
    && (forall i | 0 < i < |past| :: LawfulAt(past, i))
  }

  ghost predicate LawfulAt(past: seq<Moment>, i: nat)
    requires 0 < i < |past|
  {
    Lawful(past[i - 1], past[i])
  }

  lemma HistoryNext(past: seq<Moment>, m: Moment)
    requires |past| > 0 && History(past) && Earned(m) && Lawful(past[|past| - 1], m)
    ensures History(past + [m])
  {
    var now := past + [m];
    forall i | 0 < i < |now| ensures LawfulAt(now, i) {
      if i < |past| { assert LawfulAt(past, i); }
    }
  }

  lemma {:induction false} LawfulRun(past: seq<Moment>, i: nat, j: nat)
    requires History(past) && i <= j < |past|
    ensures Lawful(past[i], past[j])
    decreases j
  {
    if i < j {
      LawfulRun(past, i, j - 1);
      assert LawfulAt(past, j);
      forall id | id in past[i].certs ensures id in past[j].certs && Allowed(past[i].certs[id], past[j].certs[id]) {
        assert Allowed(past[i].certs[id], past[j - 1].certs[id]);
      }
    }
  }

  /** A stored failure is never left, in any run. */
  lemma FailureIsFinal(past: seq<Moment>, i: nat, j: nat, id: string)
    requires History(past) && i <= j < |past| && id in past[i].certs && past[i].certs[id].state.Failed?
    ensures id in past[j].certs && past[j].certs[id].state.Failed?
  {
    LawfulRun(past, i, j);
  }

  /** A stored pass was earned, and with a consumed challenge. */
  lemma PassIsEarned(past: seq<Moment>, i: nat, id: string)
    requires History(past) && i < |past| && id in past[i].certs && past[i].certs[id].state.Passed?
    ensures var c := past[i].certs[id];
            && c.identity.Passed? && c.cli.Passed? && c.desktop.Passed? && c.profiles == REQUIRED_PROFILES && c.cleanup
            && id in past[i].consumed
  {
    assert Earned(past[i]);
  }

  class Certifier {
    var certs: map<string, Certificate>
    var challenges: map<string, Challenge>
    /** The `.used` files. */
    var markers: set<string>
    ghost var consumed: set<string>
    ghost var past: seq<Moment>

    ghost predicate Valid()
      reads this
    {
      && |past| > 0 && past[|past| - 1] == Moment(certs, consumed) && History(past)
      && (forall id | id in challenges :: challenges[id].usedAt.Some? <==> id in consumed)
    }

    constructor ()
      ensures Valid() && certs == map[] && challenges == map[] && markers == {} && consumed == {}
    {
      certs, challenges, markers, consumed := map[], map[], {}, {};
      past := [Moment(map[], {})];
    }

    /** Store.Save: the certificate is in place, or it is not. */
    method Save(id: string, c: Certificate, how: Write) returns (ok: bool)
      requires Valid()
      requires id in certs ==> Allowed(certs[id], c)
      requires (c.state.Passed? ==> Complete(c)) && (c.desktop.Passed? ==> id in consumed)
      modifies `certs, `past
      ensures Valid() && old(past) <= past && ok == how.Done?
      ensures certs == if how.Lost? then old(certs) else old(certs)[id := c]
    {
      if !how.Lost? {
        certs := certs[id := c];
        HistoryNext(past, Moment(certs, consumed));
        past := past + [Moment(certs, consumed)];
      }
      return how.Done?;
    }

    /** Store.SaveChallenge. */
    method SaveChallenge(id: string, c: Challenge, how: Write) returns (ok: bool)
      requires Valid() && (id in consumed ==> c.usedAt.Some?)
      modifies `challenges, `consumed, `past
      ensures Valid() && old(past) <= past && ok == how.Done?
      ensures challenges == if how.Lost? then old(challenges) else old(challenges)[id := c]
      ensures consumed == if !how.Lost? && c.usedAt.Some? then old(consumed) + {id} else old(consumed)
    {
      if !how.Lost? {
        challenges := challenges[id := c];
        if c.usedAt.Some? {
          consumed := consumed + {id};
          HistoryNext(past, Moment(certs, consumed));
          past := past + [Moment(certs, consumed)];
        }
      }
      return how.Done?;
    }

    /** Store.DeleteChallenge: each file is tried, whatever became of the others. */
    method DeleteChallenge(id: string, how: Erase) returns (ok: bool)
      requires Valid()
      modifies `challenges, `markers
      ensures Valid() && ok == (how.challenge && how.marker)
      ensures challenges == if how.challenge then old(challenges) - {id} else old(challenges)
      ensures markers == if how.marker then old(markers) - {id} else old(markers)
    {
      if how.challenge { challenges := challenges - {id}; }
      if how.marker { markers := markers - {id}; }
      return how.challenge && how.marker;
    }

    /** The challenge is there, nobody has used it, no marker says that somebody is about
        to, and the receipt of the process is a digest. */
    predicate Consumable(id: string, process: string)
      reads this
    {
      && id in challenges && challenges[id].usedAt.None? && id !in markers
      && |process| == 64 && forall c | c in process :: c in "0123456789abcdefABCDEF"
    }

    /** Store.ConsumeChallenge. */
    method ConsumeChallenge(id: string, now: int, process: string, closes: bool, how: Write)
        returns (r: Option<Challenge>)
      requires Valid()
      modifies `challenges, `markers, `consumed, `past
      ensures Valid() && old(past) <= past
      ensures r.Some? <==> old(Consumable(id, process)) && closes && how.Done?
      ensures r.Some? ==>
        && id !in old(consumed) && consumed == old(consumed) + {id} && IsProcess(process)
        && id in old(challenges) && r.value == old(challenges)[id].(usedAt := Some(now), process := process)
        && challenges == old(challenges)[id := r.value]
      ensures markers == if old(Consumable(id, process)) then old(markers) + {id} else old(markers)
      ensures challenges ==
        if old(Consumable(id, process)) && closes && how != Lost
        then old(challenges)[id := old(challenges)[id].(usedAt := Some(now), process := process)]
        else old(challenges)
      ensures forall other | other != id :: (other in consumed <==> other in old(consumed))
    {
      ProcessIs(process);
      if id !in challenges || challenges[id].usedAt.Some? || !IsProcess(process) || id in markers { return None; }
      markers := markers + {id};
      if !closes { return None; }
      var used := challenges[id].(usedAt := Some(now), process := process);
      var ok := SaveChallenge(id, used, how);
      return if ok then Some(used) else None;
    }

    /** codexCertifyStart after the flags; `identity` holds the receipts of the identity
        gate, when it passes. The identifier is random: no earlier one is drawn again. */
    method Start(id: string, nonce: string, proof: string, now: int, ttl: int, current: seq<string>, sandbox: bool,
                 identity: Option<nat>, cli: bool, cleanup: bool, first: Write, erase: Erase, how: Write)
                     returns (ok: bool)
      requires Valid() && id !in certs && id !in challenges && id !in consumed
      modifies `certs, `challenges, `markers, `consumed, `past
      ensures Valid() && old(past) <= past && consumed == old(consumed)
      ensures forall other | other != id ::
        && (other in certs <==> other in old(certs)) && (other in certs ==> certs[other] == old(certs)[other])
      ensures id in certs <==> 0 < ttl <= 2_592_000 && sandbox && first.Done? && how != Lost
      ensures id in certs ==>
        certs[id] ==
        Certificate(if identity.Some? && cli && cleanup then Pending else Failed, now, now + ttl, current,
                    if identity.Some? then Passed else Failed,
                    if identity.None? then Pending else if cli then Passed else Failed,
                    Pending, if identity.Some? then identity.value else 0, cleanup, nonce, proof)
      ensures ok <==>
        0 < ttl <= 2_592_000 && sandbox && first.Done? && identity.Some? && cli && cleanup && how.Done?
      ensures ok ==> id in challenges && challenges[id] == Challenge(nonce, proof, None, "") && markers == old(markers)
      ensures !ok && erase.challenge && first.Done? ==> id !in challenges
    {
      if ttl <= 0 || ttl > THIRTY_DAYS || !sandbox { return false; }
      var cert := Certificate(Pending, now, now + ttl, current, Pending, Pending, Pending, 0, false, nonce, proof);
      ok := SaveChallenge(id, Challenge(nonce, proof, None, ""), first);
      if !ok { return; }
      if identity.None? {
        cert := cert.(identity := Failed, state := Failed, cleanup := cleanup);
        var _ := DeleteChallenge(id, erase);
        var _ := Save(id, cert, how);
        return false;
      }
      cert := cert.(profiles := identity.value, identity := Passed,
                    cli := if cli then Passed else Failed, cleanup := cleanup);
      cert := cert.(state := Sealed(cert));
      assert cert.state == if cli && cleanup then Pending else Failed;
      ok := Save(id, cert, how);
      if !ok || !cli || !cleanup {
        var _ := DeleteChallenge(id, erase);
        ok := false;
      }
    }

    /** codexCertifyChallenge: what it prints is the consumed challenge. */
    method Show(id: string, nonce: string, now: int, used: int, process: Option<string>, closes: bool, how: Write)
      returns (r: Option<Challenge>)
      requires Valid()
      modifies `challenges, `markers, `consumed, `past
      ensures Valid() && old(past) <= past
      ensures r.Some? ==>
        && id in certs && certs[id].state.Pending? && now < certs[id].expires && certs[id].identity.Passed?
            && certs[id].cli.Passed?
        && certs[id].cleanup && r.value.nonce == nonce
            && (r.value.nonce, r.value.proof) == (certs[id].nonce, certs[id].proof)
        && id !in old(consumed) && id in consumed
      ensures r.Some? <==>
        && id in certs && certs[id].state.Pending? && now < certs[id].expires && certs[id].identity.Passed?
        && certs[id].cli.Passed? && certs[id].cleanup && process.Some? && old(Consumable(id, process.value))
        && old(challenges)[id].nonce == nonce == certs[id].nonce && old(challenges)[id].proof == certs[id].proof
        && closes && how.Done?
      ensures r.Some? ==>
        challenges == old(challenges)[id := old(challenges)[id].(usedAt := Some(used), process := process.value)]
      ensures forall other | other != id :: (other in consumed <==> other in old(consumed))
    {
      if id !in certs || id !in challenges { return None; }
      var c, h := certs[id], challenges[id];
      if !c.state.Pending? || now >= c.expires || h.nonce != nonce
          || (c.nonce, c.proof) != (h.nonce, h.proof) { return None; }
      if !c.identity.Passed? || !c.cli.Passed? || !c.cleanup || process.None? { return None; }
      r := ConsumeChallenge(id, used, process.value, closes, how);
    }

    /** Ready to be completed: every other gate passed, the challenge used by a process
        between the creation and now, and the certificate pending for this installation. */
    predicate Finishable(id: string, now: int, middle: int, current: Option<seq<string>>)
      reads this
    {
      && id in certs && id in challenges && current.Some?
      && certs[id].identity.Passed? && certs[id].cli.Passed? && certs[id].cleanup && !certs[id].state.Failed?
      && !(certs[id].desktop.Passed? && certs[id].profiles == 4)
      && challenges[id].usedAt.Some? && certs[id].created <= challenges[id].usedAt.value <= now
      && |challenges[id].process| == 64 && (forall c | c in challenges[id].process :: c in "0123456789abcdefABCDEF")
      && middle < certs[id].expires && certs[id].fingerprints == current.value
    }

    /** codexCertifyComplete: `desktop` tells whether the visible chat shows what it has
        to; the clock is read three times. */
    method Finish(id: string, now: int, middle: int, later: int, current: Option<seq<string>>, desktop: bool,
                  how: Write, erase: Erase)
      returns (ok: bool)
      requires Valid()
      modifies `certs, `challenges, `markers, `past
      ensures Valid() && old(past) <= past
      ensures forall other | other != id ::
        && (other in certs <==> other in old(certs)) && (other in certs ==> certs[other] == old(certs)[other])
      ensures id in certs <==> id in old(certs)
      ensures ok ==> id in certs && certs[id].state.Passed? && !old(certs)[id].state.Passed? && id !in challenges
      ensures ok ==> current.Some? && EffectiveState(certs[id], later, current.value).Passed?
      ensures ok <==>
        && old(Finishable(id, now, middle, current)) && desktop && later < old(certs)[id].expires
        && old(certs)[id].profiles == 4 && how.Done? && erase == Erase(true, true)
      ensures !old(Finishable(id, now, middle, current)) || how.Lost? ==> certs == old(certs)
      ensures old(Finishable(id, now, middle, current)) && how != Lost ==>
        certs[id] == if desktop then Seen(old(certs)[id], later)
            else old(certs)[id].(state := Pending, desktop := Pending)
    {
      if id !in certs || id !in challenges { return false; }
      var cert, h := certs[id], challenges[id];
      ProcessIs(h.process);
      if !cert.identity.Passed? || !cert.cli.Passed? || !cert.cleanup { return false; }
      if h.usedAt.None? || h.usedAt.value < cert.created || h.usedAt.value > now
          || !IsProcess(h.process) { return false; }
      if current.None? || !EffectiveState(cert, middle, current.value).Pending? { return false; }
      if !desktop {
        cert := cert.(desktop := Pending);
        var _ := Save(id, cert.(state := Sealed(cert)), how);
        return false;
      }
      cert := cert.(desktop := Passed);
      cert := cert.(state := Sealed(cert));
      var state := EffectiveState(cert, later, current.value);
      if !state.Passed? {
        var _ := Save(id, cert.(state := state), how);
        return false;
      }
      ok := Save(id, cert, how);
      if ok { ok := DeleteChallenge(id, erase); }
    }

    /** codexCertifyCancel. */
    method Cancel(id: string, cleanup: bool, erase: Erase, how: Write) returns (ok: bool)
      requires Valid()
      modifies `certs, `challenges, `markers, `past
      ensures Valid() && old(past) <= past
      ensures id in old(certs) && how != Lost ==>
        certs == old(certs)[id := old(certs)[id].(cleanup := cleanup, state := Failed, desktop := Failed)]
      ensures id !in old(certs) || how.Lost? ==> certs == old(certs)
      ensures ok <==> id in old(certs) && cleanup && how.Done?
      ensures ok ==> certs[id].state.Failed?
    {
      if id !in certs { return false; }
      var cert := certs[id].(cleanup := cleanup, state := Failed, desktop := Failed);
      var _ := DeleteChallenge(id, erase);
      ok := Save(id, cert, how);
      ok := ok && cleanup;
    }
  }

  /** The whole way: started, shown to one Desktop process, completed. */
  method Lifecycle(id: string, nonce: string, proof: string, now: int, current: seq<string>, process: string)
    returns (certifier: Certifier, ok: bool)
    requires |process| == 64 && forall c | c in process :: c in "0123456789abcdefABCDEF"
    ensures certifier.Valid() && ok && id in certifier.certs && certifier.certs[id].state.Passed?
    ensures certifier.certs[id].fingerprints == current && id !in certifier.challenges && id in certifier.consumed
  {
    certifier := new Certifier();
    ok := certifier.Start(id, nonce, proof, now, 60, current, true, Some(4), true, true, Done, Erase(true, true), Done);
    var shown := certifier.Show(id, nonce, now, now, Some(process), true, Done);
    assert shown.Some?;
    ok := certifier.Finish(id, now, now, now, Some(current), true, Done, Erase(true, true));
  }
}
