/** The port-knocking server: a per-address tracker of knocks on the sentinel ports that, when an
    address knocks the configured sequence within the window, asks the firewall to open the
    protected port for it and leaves an auto-close timer behind.

    Time is integer ticks supplied by the caller; the firewall is represented by the boolean
    result of each call, also supplied by the caller. */
module KnockServer {
  import opened Wrappers
  import opened Seqs
  import opened Text

  type Ip = string

  /** One stored knock: `(port, timestamp)`. */
  datatype Knock = Knock(port: int, at: int)

  /** What `record_knock` does with the newest knock. */
  datatype Decision =
    | Granted             // the stored ports equal the sequence: a grant is attempted and progress is cleared
    | WrongPort           // the newest port is not the one expected at its position: progress is cleared
    | Extended            // the newest port is the one expected at its position: progress is kept
    | SequenceIndexError  // progress outgrew the sequence, so `sequence[len(progress) - 1]` raises IndexError

  /** A grant in `open_ports`; the thread handle is represented by the tracker's pending timers. */
  datatype Grant = Grant(openedAt: int)

  /** A call into iptables, with the result it reported. */
  datatype FirewallCall =
    | Allow(ip: Ip, port: int, ok: bool)   // open_protected_port
    | Revoke(ip: Ip, port: int, ok: bool)  // close_protected_port

  /** The stored ports agree with the start of the sequence, position by position. */
  predicate SpellsPrefix(knocks: seq<Knock>, sequence: seq<int>) {
    |knocks| <= |sequence| && forall i :: 0 <= i < |knocks| ==> knocks[i].port == sequence[i]
  }

  /** The pruning comprehension of record_knock: keep the knocks strictly newer than `cutoff`. */
  function Prune(knocks: seq<Knock>, cutoff: int): (r: seq<Knock>)
    ensures |r| <= |knocks|
  {
    Filter(knocks, (k: Knock) => k.at > cutoff)
  }

  /** A knock survives pruning exactly when it was stored and is newer than the cutoff. */
  lemma PruneKeepsExactlyFresh(knocks: seq<Knock>, cutoff: int, k: Knock)
    ensures k in Prune(knocks, cutoff) <==> k in knocks && k.at > cutoff
  {
  }

  /** When no stored knock is older than the cutoff, pruning changes nothing. */
  lemma PruneAllFresh(knocks: seq<Knock>, cutoff: int)
    requires forall i :: 0 <= i < |knocks| ==> knocks[i].at > cutoff
    ensures Prune(knocks, cutoff) == knocks
  {
    FilterAllKept(knocks, (k: Knock) => k.at > cutoff);
  }

  /** Pruning keeps the surviving knocks in their original order. */
  lemma PruneKeepsOrder(older: seq<Knock>, newer: seq<Knock>, cutoff: int)
    ensures Prune(older + newer, cutoff) == Prune(older, cutoff) + Prune(newer, cutoff)
  {
    FilterAppend(older, newer, (k: Knock) => k.at > cutoff);
  }

  /** check_sequence: the list of stored ports equals the sequence (same length, same order). */
  predicate CheckSequence(sequence: seq<int>, knocks: seq<Knock>) {
    |knocks| == |sequence| && SpellsPrefix(knocks, sequence)
  }

  /** check_sequence compares the list of stored ports with the sequence. */
  lemma CheckSequenceMeansSamePorts(sequence: seq<int>, knocks: seq<Knock>)
    ensures CheckSequence(sequence, knocks) <==> Map(knocks, (k: Knock) => k.port) == sequence
  {
    var ports := Map(knocks, (k: Knock) => k.port);
    if ports == sequence {
      assert forall i :: 0 <= i < |knocks| ==> knocks[i].port == ports[i];
    }
  }

  /** The decision taken on the knocks kept after pruning and appending the newest one. */
  function Decide(sequence: seq<int>, kept: seq<Knock>, port: int): (d: Decision)
    requires |kept| > 0
    ensures d == Granted ==> |kept| == |sequence|
    ensures d == SequenceIndexError <==> |kept| > |sequence|
    ensures d == WrongPort ==> |kept| <= |sequence| && port != sequence[|kept| - 1]
    ensures d == Extended ==> |kept| <= |sequence| && port == sequence[|kept| - 1]
  {
    if CheckSequence(sequence, kept) then Granted
    else if |kept| - 1 >= |sequence| then SequenceIndexError
    else if port != sequence[|kept| - 1] then WrongPort
    else Extended
  }

  /** The decision together with the address's progress afterwards. */
  datatype Outcome = Outcome(decision: Decision, progress: seq<Knock>)

  /** One knock on the progress of one address, as record_knock treats it. */
  function Step(sequence: seq<int>, window: int, knocks: seq<Knock>, port: int, now: int): (o: Outcome)
    ensures o.progress == [] <==> o.decision in {Granted, WrongPort}
    ensures |o.progress| <= |knocks| + 1
  {
    var kept := Prune(knocks, now - window) + [Knock(port, now)];
    var d := Decide(sequence, kept, port);
    Outcome(d, if d == Granted || d == WrongPort then [] else kept)
  }

  /** What a knock does, in terms of the knocks that survive pruning: it grants exactly when they
      and the new port spell the whole sequence, raises IndexError exactly when they already number
      at least the sequence's length, and resets exactly when the new port is not the one expected
      after them; progress is cleared on a grant or a reset and otherwise extended. */
  lemma StepSpec(sequence: seq<int>, window: int, knocks: seq<Knock>, port: int, now: int)
    ensures var r := Step(sequence, window, knocks, port, now);
      var pruned := Prune(knocks, now - window);
      && (r.decision == Granted <==> |pruned| + 1 == |sequence| && SpellsPrefix(pruned + [Knock(port, now)], sequence))
      && (r.decision == SequenceIndexError <==> |pruned| >= |sequence|)
      && (r.decision == WrongPort <==> |pruned| < |sequence| && port != sequence[|pruned|])
      && r.progress == if r.decision in {Granted, WrongPort} then [] else pruned + [Knock(port, now)]
  {
  }

  /** The decisions for a series of knocks from one address, and its progress after the last. */
  datatype Trace = Trace(decisions: seq<Decision>, progress: seq<Knock>)

  function Run(sequence: seq<int>, window: int, knocks: seq<Knock>, events: seq<Knock>): (t: Trace)
    ensures |t.decisions| == |events|
    decreases |events|
  {
    if events == [] then Trace([], knocks)
    else
      var o := Step(sequence, window, knocks, events[0].port, events[0].at);
      var rest := Run(sequence, window, o.progress, events[1..]);
      Trace([o.decision] + rest.decisions, rest.progress)
  }

  /** After a series of knocks, an address is left without progress exactly when its last knock
      granted or reset, and otherwise holds at most one knock more per knock of the series. */
  lemma {:induction false} RunEndsCleared(sequence: seq<int>, window: int, knocks: seq<Knock>, events: seq<Knock>)
    requires events != []
    ensures var t := Run(sequence, window, knocks, events);
      && (t.progress == [] <==> t.decisions[|events| - 1] in {Granted, WrongPort})
      && |t.progress| <= |knocks| + |events|
    decreases |events|
  {
    var o := Step(sequence, window, knocks, events[0].port, events[0].at);
    if |events| > 1 {
      RunEndsCleared(sequence, window, o.progress, events[1..]);
    }
  }

  /** A knock that continues a prefix of the sequence, with no stored knock aged out, extends the
      progress, or grants when it is the last port. */
  lemma StepOnFreshPrefix(sequence: seq<int>, window: int, knocks: seq<Knock>, port: int, now: int)
    requires |knocks| < |sequence| && SpellsPrefix(knocks, sequence) && port == sequence[|knocks|]
    requires forall i :: 0 <= i < |knocks| ==> knocks[i].at > now - window
    ensures Step(sequence, window, knocks, port, now)
         == if |knocks| + 1 == |sequence| then Outcome(Granted, []) else Outcome(Extended, knocks + [Knock(port, now)])
  {
    PruneAllFresh(knocks, now - window);
  }

  /** While no knock has aged out, progress stays a proper prefix of the sequence and the
      IndexError cannot occur. */
  lemma PrefixKeptWhileFresh(sequence: seq<int>, window: int, knocks: seq<Knock>, port: int, now: int)
    requires |knocks| < |sequence| && SpellsPrefix(knocks, sequence)
    requires forall i :: 0 <= i < |knocks| ==> knocks[i].at > now - window
    ensures var o := Step(sequence, window, knocks, port, now);
      && o.decision != SequenceIndexError
      && |o.progress| < |sequence|
      && SpellsPrefix(o.progress, sequence)
  {
    var kept := knocks + [Knock(port, now)];
    if port == sequence[|knocks|] {
      StepOnFreshPrefix(sequence, window, knocks, port, now);
      assert SpellsPrefix(kept, sequence);
    } else {
      PruneAllFresh(knocks, now - window);
      assert kept[|knocks|].port != sequence[|knocks|];
      assert Step(sequence, window, knocks, port, now) == Outcome(WrongPort, []);
    }
  }

  /** Once an address holds at least as many fresh knocks as the sequence has ports, every knock
      raises IndexError and the progress only grows, until knocks age out. */
  lemma StuckWhileTooLong(sequence: seq<int>, window: int, knocks: seq<Knock>, port: int, now: int)
    requires |knocks| >= |sequence|
    requires forall i :: 0 <= i < |knocks| ==> knocks[i].at > now - window
    ensures Step(sequence, window, knocks, port, now) == Outcome(SequenceIndexError, knocks + [Knock(port, now)])
  {
    PruneAllFresh(knocks, now - window);
  }

  /** A grant uses only knocks newer than `now - window`: every knock of the completed sequence
      but the last was stored and is fresh, and the last is the knock just received. So knocks
      spread over more than the window never grant. */
  lemma GrantUsesOnlyFreshKnocks(sequence: seq<int>, window: int, knocks: seq<Knock>, port: int, now: int)
    ensures Step(sequence, window, knocks, port, now).decision == Granted ==>
      var used := Prune(knocks, now - window) + [Knock(port, now)];
      && |used| == |sequence|
      && (forall i :: 0 <= i < |used| ==> used[i].port == sequence[i])
      && (forall i :: 0 <= i < |used| - 1 ==> used[i] in knocks && used[i].at > now - window)
      && used[|used| - 1] == Knock(port, now)
  {
    var pruned := Prune(knocks, now - window);
    var used := pruned + [Knock(port, now)];
    forall i | 0 <= i < |used| - 1 ensures used[i] in knocks && used[i].at > now - window {
      assert used[i] == pruned[i];
      PruneKeepsExactlyFresh(knocks, now - window, pruned[i]);
    }
  }

  /** Knocks that have all aged out cannot complete a sequence of two or more ports. */
  lemma StaleKnocksNeverGrant(sequence: seq<int>, window: int, knocks: seq<Knock>, port: int, now: int)
    requires |sequence| >= 2
    requires forall i :: 0 <= i < |knocks| ==> knocks[i].at <= now - window
    ensures Step(sequence, window, knocks, port, now).decision != Granted
  {
    FilterNoneKept(knocks, (k: Knock) => k.at > now - window);
    assert Prune(knocks, now - window) == [];
  }

  /** Knocking the rest of the sequence in order, all knocks falling in one window-long interval
      starting at `lo`, extends the progress at every step but the last and grants on the last. */
  lemma {:induction false} InOrderKnocksGrant(sequence: seq<int>, window: int, lo: int, knocks: seq<Knock>, events: seq<Knock>)
    requires |events| > 0 && |knocks| + |events| == |sequence|
    requires SpellsPrefix(knocks + events, sequence)
    requires forall i :: 0 <= i < |knocks| ==> lo <= knocks[i].at < lo + window
    requires forall i :: 0 <= i < |events| ==> lo <= events[i].at < lo + window
    ensures Run(sequence, window, knocks, events)
         == Trace(seq(|events| - 1, _ => Extended) + [Granted], [])
    decreases |events|
  {
    var e := events[0];
    assert (knocks + events)[|knocks|] == e;
    StepOnFreshPrefix(sequence, window, knocks, e.port, e.at);
    if |events| > 1 {
      var kept := knocks + [e];
      assert kept + events[1..] == knocks + events;
      InOrderKnocksGrant(sequence, window, lo, kept, events[1..]);
      assert [Extended] + seq(|events| - 2, _ => Extended) == seq(|events| - 1, _ => Extended);
    }
  }

  /** An address that starts from no progress and knocks exactly the sequence, all knocks within
      one window, is granted once, on its last knock, and is left with no progress. */
  lemma CorrectSequenceGrantsOnce(sequence: seq<int>, window: int, lo: int, events: seq<Knock>)
    requires |sequence| > 0 && |events| == |sequence| && SpellsPrefix(events, sequence)
    requires forall i :: 0 <= i < |events| ==> lo <= events[i].at < lo + window
    ensures var t := Run(sequence, window, [], events);
      && t.decisions[|events| - 1] == Granted
      && (forall i :: 0 <= i < |events| - 1 ==> t.decisions[i] == Extended)
      && t.progress == []
  {
    assert [] + events == events;
    InOrderKnocksGrant(sequence, window, lo, [], events);
  }

  /** With the default sequence 1234, 5678, 9012 and a window of 10 ticks, progress need not be a
      prefix of the sequence: once the first knock ages out it reads 5678, 5678, 9012, and the
      next knock raises IndexError instead of resetting. */
  lemma ProgressNotAlwaysPrefix()
    ensures Step([1234, 5678, 9012], 10, [], 1234, 0)
         == Outcome(Extended, [Knock(1234, 0)])
    ensures Step([1234, 5678, 9012], 10, [Knock(1234, 0)], 5678, 5)
         == Outcome(Extended, [Knock(1234, 0), Knock(5678, 5)])
    ensures Step([1234, 5678, 9012], 10, [Knock(1234, 0), Knock(5678, 5)], 5678, 11)
         == Outcome(Extended, [Knock(5678, 5), Knock(5678, 11)])
    ensures Step([1234, 5678, 9012], 10, [Knock(5678, 5), Knock(5678, 11)], 9012, 12)
         == Outcome(Extended, [Knock(5678, 5), Knock(5678, 11), Knock(9012, 12)])
    ensures Step([1234, 5678, 9012], 10, [Knock(5678, 5), Knock(5678, 11), Knock(9012, 12)], 1234, 13).decision
         == SequenceIndexError
  {
    FirstTwoKnocksExtend();
    FirstKnockAgesOut();
    NonPrefixProgressExtends();
    NonPrefixProgressRaises();
  }

  lemma FirstTwoKnocksExtend()
    ensures Step([1234, 5678, 9012], 10, [], 1234, 0)
         == Outcome(Extended, [Knock(1234, 0)])
    ensures Step([1234, 5678, 9012], 10, [Knock(1234, 0)], 5678, 5)
         == Outcome(Extended, [Knock(1234, 0), Knock(5678, 5)])
  {
    StepOnFreshPrefix([1234, 5678, 9012], 10, [], 1234, 0);
    StepOnFreshPrefix([1234, 5678, 9012], 10, [Knock(1234, 0)], 5678, 5);
  }

  /** Progress 5678, 5678 has two knocks, and 9012 is the port expected third: it is kept. */
  lemma NonPrefixProgressExtends()
    ensures Step([1234, 5678, 9012], 10, [Knock(5678, 5), Knock(5678, 11)], 9012, 12)
         == Outcome(Extended, [Knock(5678, 5), Knock(5678, 11), Knock(9012, 12)])
  {
    var kept := [Knock(5678, 5), Knock(5678, 11), Knock(9012, 12)];
    PruneAllFresh([Knock(5678, 5), Knock(5678, 11)], 2);
    assert kept[0].port != 1234;
    assert !CheckSequence([1234, 5678, 9012], kept);
  }

  /** Three fresh knocks and a sequence of three ports: the next knock raises IndexError. */
  lemma NonPrefixProgressRaises()
    ensures Step([1234, 5678, 9012], 10, [Knock(5678, 5), Knock(5678, 11), Knock(9012, 12)], 1234, 13).decision
         == SequenceIndexError
  {
    StuckWhileTooLong([1234, 5678, 9012], 10, [Knock(5678, 5), Knock(5678, 11), Knock(9012, 12)], 1234, 13);
  }

  /** At tick 11 the knock of tick 0 is older than the window and is dropped; the repeated 5678
      is then checked against position 1 only, which it matches. */
  lemma FirstKnockAgesOut()
    ensures Step([1234, 5678, 9012], 10, [Knock(1234, 0), Knock(5678, 5)], 5678, 11)
         == Outcome(Extended, [Knock(5678, 5), Knock(5678, 11)])
  {
    var k0, k1 := Knock(1234, 0), Knock(5678, 5);
    assert Prune([k0, k1], 1) == [k1] by {
      PruneKeepsOrder([k0], [k1], 1);
      assert [k0] + [k1] == [k0, k1];
    }
  }

  /** A skipped port resets the progress, wrong knock included, and knocking the whole sequence
      afterwards still grants: a first port followed at once by a port other than the second
      leaves nothing behind. */
  lemma SkippedPortResetsThenGrants(sequence: seq<int>, window: int, lo: int, first: Knock, wrong: Knock, events: seq<Knock>)
    requires |sequence| >= 2 && first.port == sequence[0] && wrong.port != sequence[1]
    requires first.at > wrong.at - window
    requires |events| == |sequence| && SpellsPrefix(events, sequence)
    requires forall i :: 0 <= i < |events| ==> lo <= events[i].at < lo + window
    ensures Run(sequence, window, [], [first, wrong] + events)
         == Trace([Extended, WrongPort] + seq(|events| - 1, _ => Extended) + [Granted], [])
  {
    var tail := Run(sequence, window, [], events);
    assert tail == Trace(seq(|events| - 1, _ => Extended) + [Granted], []) by {
      assert [] + events == events;
      InOrderKnocksGrant(sequence, window, lo, [], events);
    }
    assert Run(sequence, window, [first], [wrong] + events) == Trace([WrongPort] + tail.decisions, []) by {
      PruneAllFresh([first], wrong.at - window);
      assert Step(sequence, window, [first], wrong.port, wrong.at) == Outcome(WrongPort, []);
      RunFirst(sequence, window, [first], wrong, events);
    }
    StepOnFreshPrefix(sequence, window, [], first.port, first.at);
    RunFirst(sequence, window, [], first, [wrong] + events);
    assert [first] + ([wrong] + events) == [first, wrong] + events;
  }

  /** Run takes the first knock, then runs the rest from the progress it leaves. */
  lemma RunFirst(sequence: seq<int>, window: int, knocks: seq<Knock>, e: Knock, rest: seq<Knock>)
    ensures var o := Step(sequence, window, knocks, e.port, e.at);
      var t := Run(sequence, window, o.progress, rest);
      Run(sequence, window, knocks, [e] + rest) == Trace([o.decision] + t.decisions, t.progress)
  {
    assert ([e] + rest)[1..] == rest;
  }

  /** Tracks knock progress and open grants per source address (class KnockTracker). */
  class KnockTracker {
    const sequence: seq<int>
    const window: int
    const protectedPort: int
    /** IP -> list of (port, timestamp); a missing key reads as the empty list (defaultdict). */
    var progress: map<Ip, seq<Knock>>
    /** IP -> the grant currently recorded as open */
    var openPorts: map<Ip, Grant>
    /** One entry per auto-close thread that has not fired yet, by the address it will close. */
    var timers: multiset<Ip>
    /** Every iptables call issued so far, in order. */
    var firewall: seq<FirewallCall>

    /** Every recorded grant still has an auto-close thread that will remove it. */
    ghost predicate Valid()
      reads this
    {
      forall ip :: ip in openPorts ==> ip in timers
    }

    function ProgressOf(ip: Ip): seq<Knock>
      reads this
    {
      if ip in progress then progress[ip] else []
    }

    constructor (sequence: seq<int>, window: int, protectedPort: int)
      ensures Valid()
      ensures this.sequence == sequence && this.window == window && this.protectedPort == protectedPort
      ensures progress == map[] && openPorts == map[] && timers == multiset{} && firewall == []
    {
      this.sequence := sequence;
      this.window := window;
      this.protectedPort := protectedPort;
      progress := map[];
      openPorts := map[];
      timers := multiset{};
      firewall := [];
    }

    /** close_port_for_ip: nothing happens unless the address has a grant; otherwise the rule is
        revoked and the grant is forgotten whether or not the revoke succeeded. */
    method ClosePortForIp(ip: Ip, revokeOk: bool)
      requires Valid()
      modifies this
      ensures Valid()
      ensures openPorts == old(openPorts) - {ip}
      ensures firewall == old(firewall) + if ip in old(openPorts) then [Revoke(ip, protectedPort, revokeOk)] else []
      ensures progress == old(progress) && timers == old(timers)
    {
      if ip in openPorts {
        firewall := firewall + [Revoke(ip, protectedPort, revokeOk)];
        openPorts := openPorts - {ip};
      }
    }

    /** open_port_for_ip: an existing grant is closed first; a new grant, with its auto-close
        timer, is recorded only when the firewall accepted the rule. */
    method OpenPortForIp(ip: Ip, now: int, revokeOk: bool, grantOk: bool)
      requires Valid()
      modifies this
      ensures Valid()
      ensures openPorts == if grantOk then old(openPorts)[ip := Grant(now)] else old(openPorts) - {ip}
      ensures timers == if grantOk then old(timers) + multiset{ip} else old(timers)
      ensures firewall == old(firewall)
                          + (if ip in old(openPorts) then [Revoke(ip, protectedPort, revokeOk)] else [])
                          + [Allow(ip, protectedPort, grantOk)]
      ensures progress == old(progress)
    {
      if ip in openPorts {
        ClosePortForIp(ip, revokeOk);
      }
      firewall := firewall + [Allow(ip, protectedPort, grantOk)];
      if grantOk {
        timers := timers + multiset{ip};
        openPorts := openPorts[ip := Grant(now)];
      }
    }

    /** The body of the auto-close thread after its sleep: it closes the address's grant
        unconditionally, even one opened after this timer was started. */
    method TimerFires(ip: Ip, revokeOk: bool)
      requires Valid() && ip in timers
      modifies this
      ensures Valid()
      ensures timers == old(timers) - multiset{ip}
      ensures openPorts == old(openPorts) - {ip}
      ensures firewall == old(firewall) + if ip in old(openPorts) then [Revoke(ip, protectedPort, revokeOk)] else []
      ensures progress == old(progress)
    {
      ClosePortForIp(ip, revokeOk);
      timers := timers - multiset{ip};
    }

    /** The first half of record_knock: drop the address's stale knocks, then append the new one. */
    method PruneAndAppend(ip: Ip, port: int, now: int)
      requires Valid()
      modifies this
      ensures Valid()
      ensures progress == old(progress)[ip := Prune(old(ProgressOf(ip)), now - window) + [Knock(port, now)]]
      ensures openPorts == old(openPorts) && timers == old(timers) && firewall == old(firewall)
    {
      progress := progress[ip := Prune(ProgressOf(ip), now - window)];
      progress := progress[ip := progress[ip] + [Knock(port, now)]];
    }

    /** The second half of record_knock, on the address's knocks once pruned and extended:
        grant and clear, reset, keep, or fail with IndexError. */
    method Conclude(ip: Ip, port: int, now: int, revokeOk: bool, grantOk: bool) returns (d: Decision)
      requires Valid() && ip in progress && |progress[ip]| > 0
      modifies this
      ensures Valid()
      ensures d == Decide(sequence, old(progress[ip]), port)
      ensures progress == old(progress)[ip := if d in {Granted, WrongPort} then [] else old(progress[ip])]
      ensures d == Granted ==>
        && openPorts == (if grantOk then old(openPorts)[ip := Grant(now)] else old(openPorts) - {ip})
        && timers == (if grantOk then old(timers) + multiset{ip} else old(timers))
        && firewall == old(firewall)
                       + (if ip in old(openPorts) then [Revoke(ip, protectedPort, revokeOk)] else [])
                       + [Allow(ip, protectedPort, grantOk)]
      ensures d != Granted ==> openPorts == old(openPorts) && timers == old(timers) && firewall == old(firewall)
    {
      if CheckSequence(sequence, progress[ip]) {
        OpenPortForIp(ip, now, revokeOk, grantOk);
        progress := progress[ip := []];
        d := Granted;
      } else {
        var n := |progress[ip]|;
        if n - 1 >= |sequence| {
          d := SequenceIndexError;
        } else if port != sequence[n - 1] {
          progress := progress[ip := []];
          d := WrongPort;
        } else {
          d := Extended;
        }
      }
    }

    /** record_knock, taken as one atomic step: prune, append, then grant, reset or keep.
        Only the knocking address's progress and grant can change. */
    method RecordKnock(ip: Ip, port: int, now: int, revokeOk: bool, grantOk: bool) returns (d: Decision)
      requires Valid()
      modifies this
      ensures Valid()
      ensures var o := Step(sequence, window, old(ProgressOf(ip)), port, now);
        d == o.decision && progress == old(progress)[ip := o.progress]
      ensures openPorts - {ip} == old(openPorts) - {ip}
      ensures d == Granted ==>
        && openPorts == (if grantOk then old(openPorts)[ip := Grant(now)] else old(openPorts) - {ip})
        && timers == (if grantOk then old(timers) + multiset{ip} else old(timers))
        && firewall == old(firewall)
                       + (if ip in old(openPorts) then [Revoke(ip, protectedPort, revokeOk)] else [])
                       + [Allow(ip, protectedPort, grantOk)]
      ensures d != Granted ==> openPorts == old(openPorts) && timers == old(timers) && firewall == old(firewall)
    {
      PruneAndAppend(ip, port, now);
      d := Conclude(ip, port, now, revokeOk, grantOk);
    }
  }

  /** A grant renewed before its first timer fires is closed by that first timer: there is no
      generation check. The result is whether the renewed grant survives (it does not). */
  method StaleTimerClosesRenewedGrant() returns (stillOpen: bool)
    ensures !stillOpen
  {
    var ip := "10.0.0.5";
    var t := new KnockTracker([1234, 5678], 10, 2222);
    t.OpenPortForIp(ip, 0, true, true);
    t.OpenPortForIp(ip, 30, true, true);
    assert t.openPorts[ip] == Grant(30) && t.timers == multiset{ip, ip};
    t.TimerFires(ip, true);
    stillOpen := ip in t.openPorts;
  }

  /** Configuration errors in main that stop the server before it starts. */
  datatype ConfigError = InvalidSequence | TooFewPorts

  /** The knock sequence from `--sequence`: comma-separated integers, at least two of them. */
  function ParseKnockSequence(arg: string): (r: Result<seq<int>, ConfigError>)
    ensures r.Success? ==> |r.value| >= 2
  {
    match ParsePorts(Split(arg, ','))
    case None => Failure(InvalidSequence)
    case Some(ports) => if |ports| < 2 then Failure(TooFewPorts) else Success(ports)
  }

  /** `[int(port) for port in pieces]`, failing if any piece is not a numeral. */
  function ParsePorts(pieces: seq<string>): (r: Option<seq<int>>)
    ensures r.Some? <==> forall i :: 0 <= i < |pieces| ==> ParseInt(pieces[i]).Some?
    ensures r.Some? ==> |r.value| == |pieces|
                        && forall i :: 0 <= i < |pieces| ==> ParseInt(pieces[i]) == Some(r.value[i])
    decreases |pieces|
  {
    if pieces == [] then Some([])
    else match (ParseInt(pieces[0]), ParsePorts(pieces[1..]))
      case (Some(p), Some(ps)) => Some([p] + ps)
      case _ => None
  }

  function ShowAll(ports: seq<int>): (r: seq<string>)
    ensures |r| == |ports|
  {
    seq(|ports|, i requires 0 <= i < |ports| => ShowInt(ports[i]))
  }

  lemma {:induction false} ParseShowAll(ports: seq<int>)
    ensures ParsePorts(ShowAll(ports)) == Some(ports)
    decreases |ports|
  {
    if ports != [] {
      var pieces := ShowAll(ports);
      ParseShowInt(ports[0]);
      assert pieces[0] == ShowInt(ports[0]);
      assert pieces[1..] == ShowAll(ports[1..]);
      ParseShowAll(ports[1..]);
      assert [ports[0]] + ports[1..] == ports;
    }
  }

  /** Writing a sequence as comma-separated numbers and parsing it back gives the sequence when
      it has at least two ports, and the "at least 2 ports" error otherwise. */
  lemma KnockSequenceRoundTrip(ports: seq<int>)
    requires |ports| > 0
    ensures ParseKnockSequence(Join(ShowAll(ports), ','))
         == if |ports| >= 2 then Success(ports) else Failure(TooFewPorts)
  {
    forall i | 0 <= i < |ports| ensures ',' !in ShowAll(ports)[i] {
      ShowIntChars(ports[i], ',');
    }
    SplitJoin(ShowAll(ports), ',');
    ParseShowAll(ports);
  }
}
