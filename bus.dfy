/** The two-wire bus the driver talks through.

    The real bus is a foreign interface (an I2C peripheral behind a write
    capability).  Here it is a recording transport: every write the driver
    issues is appended to `trace`, and the write at bus position `k` (counting
    from 0 over the transport's whole life) fails with `faults[k]` when `k` is
    a key of `faults`.  Which writes fail is fixed when the transport is made,
    so every failure pattern the bus could produce can be chosen. */
module Bus {

  /** Rust's `u8`. */
  type uint8 = x: int | 0 <= x < 256

  /** The transport's error value.  The driver never looks inside it; it only
      hands it back to its caller. */
  datatype BusError = BusError(code: int)

  /** The driver's `Result<(), E>`.  It is failure-compatible, so that `:-`
      plays the part of Rust's `?`: on `Err` the enclosing method returns the
      same value at once. */
  datatype Outcome = Ok | Err(error: BusError) {
    predicate IsFailure() { Err? }

    function PropagateFailure(): Outcome
      requires Err?
    {
      this
    }
  }

  datatype Option<T> = None | Some(value: T)

  /** One bus transaction: the device address and the bytes written to it. */
  datatype Transfer = Transfer(address: uint8, bytes: seq<uint8>)

  class Transport {
    /** Every write issued so far, in order, including one that failed. */
    var trace: seq<Transfer>
    /** Bus positions at which a write fails, and with which error. */
    const faults: map<nat, BusError>

    constructor (faults: map<nat, BusError>)
      ensures this.faults == faults && trace == []
    {
      this.faults := faults;
      trace := [];
    }

    /** `I2c::write`: one transaction to `address`. */
    method Write(address: uint8, bytes: seq<uint8>) returns (r: Outcome)
      modifies this
      ensures trace == old(trace) + [Transfer(address, bytes)]
      ensures r == if |old(trace)| in faults then Err(faults[|old(trace)|]) else Ok
    {
      r := if |trace| in faults then Err(faults[|trace|]) else Ok;
      trace := trace + [Transfer(address, bytes)];
    }
  }

  /** What happened when a script of transfers was sent one by one: the
      transfers that were issued and what the sender returned. */
  datatype Execution = Execution(issued: seq<Transfer>, outcome: Outcome)

  /** Sends `script` starting at bus position `n`, stopping at the first write
      that fails (`ExecStopsAtFirstFault` states what this means). */
  function Exec(faults: map<nat, BusError>, n: nat, script: seq<Transfer>): Execution
    decreases |script|
  {
    if script == [] then Execution([], Ok)
    else if n in faults then Execution([script[0]], Err(faults[n]))
    else
      var rest := Exec(faults, n + 1, script[1..]);
      Execution([script[0]] + rest.issued, rest.outcome)
  }

  /** The driver's error discipline: the writes issued are a prefix of the
      script; the sender returns `Ok` exactly when no write in the script's
      range fails, and then it issued the whole script; otherwise the last
      write issued is the first one that failed, nothing after it was issued,
      and its error is returned unchanged. */
  lemma {:induction false} ExecStopsAtFirstFault(faults: map<nat, BusError>, n: nat, script: seq<Transfer>)
    ensures var e := Exec(faults, n, script);
      && |e.issued| <= |script| && e.issued == script[..|e.issued|]
      && (e.outcome.Ok? <==> forall k :: n <= k < n + |script| ==> k !in faults)
      && (e.outcome.Ok? ==> e.issued == script)
      && (e.outcome.Err? ==>
            0 < |e.issued|
            && n + |e.issued| - 1 in faults
            && e.outcome.error == faults[n + |e.issued| - 1]
            && forall k :: n <= k < n + |e.issued| - 1 ==> k !in faults)
    decreases |script|
  {
    if script != [] && n !in faults {
      ExecStopsAtFirstFault(faults, n + 1, script[1..]);
      assert [script[0]] + script[1..] == script;
    }
  }

  /** The transport went from `before` to `after` and the sender returned `r`,
      exactly as sending `script` from `before` prescribes. */
  predicate Ran(faults: map<nat, BusError>, before: seq<Transfer>, after: seq<Transfer>,
                script: seq<Transfer>, r: Outcome)
  {
    var e := Exec(faults, |before|, script);
    after == before + e.issued && r == e.outcome
  }

  /** What a run leaves behind: the writes issued are the old trace followed
      by a prefix of the script; `Ok` exactly when no write in the script's
      range fails, and then the whole script was sent; otherwise the last write
      issued is the first failing one, its error is the one returned, and
      nothing was sent after it. */
  lemma RanStopsAtFirstFault(faults: map<nat, BusError>, before: seq<Transfer>, after: seq<Transfer>,
                             script: seq<Transfer>, r: Outcome)
    requires Ran(faults, before, after, script, r)
    ensures |before| <= |after| && after[..|before|] == before && after[|before|..] <= script
    ensures r.Ok? <==> forall k :: |before| <= k < |before| + |script| ==> k !in faults
    ensures r.Ok? ==> after == before + script
    ensures r.Err? ==>
              |before| < |after| && |after| - 1 in faults && r.error == faults[|after| - 1]
              && forall k :: |before| <= k < |after| - 1 ==> k !in faults
  {
    ExecStopsAtFirstFault(faults, |before|, script);
    assert after[|before|..] == Exec(faults, |before|, script).issued;
  }

  /** Concatenation regroups freely. */
  lemma AppendAssoc<T>(a: seq<T>, b: seq<T>, c: seq<T>)
    ensures (a + b) + c == a + (b + c)
  {
  }

  /** Sending `p + q` is sending `p` and, if that ran through, `q` after it. */
  lemma {:induction false} ExecAppend(faults: map<nat, BusError>, n: nat, p: seq<Transfer>, q: seq<Transfer>)
    ensures Exec(faults, n, p).outcome.Err? ==> Exec(faults, n, p + q) == Exec(faults, n, p)
    ensures Exec(faults, n, p).outcome.Ok? ==>
              Exec(faults, n, p + q) ==
                Execution(p + Exec(faults, n + |p|, q).issued, Exec(faults, n + |p|, q).outcome)
    decreases |p|
  {
    if p == [] {
      assert p + q == q;
    } else {
      assert (p + q)[0] == p[0];
      assert (p + q)[1..] == p[1..] + q;
      if n !in faults {
        ExecAppend(faults, n + 1, p[1..], q);
        assert [p[0]] + p[1..] == p;
      }
    }
  }

  /** Bookkeeping for a routine that sends the prefix `p` of `script`, then a
      part `q`: if `p` ran through, whatever `q` does extends the run of
      `p + q`, and a failure in `q` ends the run of the whole script. */
  lemma Chain(faults: map<nat, BusError>, t0: seq<Transfer>, t: seq<Transfer>,
              p: seq<Transfer>, q: seq<Transfer>, script: seq<Transfer>)
    requires Ran(faults, t0, t, p, Ok)
    requires p + q <= script
    ensures forall t', r :: Ran(faults, t, t', q, r) ==>
              Ran(faults, t0, t', p + q, r) && (r.Err? ==> Ran(faults, t0, t', script, r))
  {
    ExecStopsAtFirstFault(faults, |t0|, p);
    ExecAppend(faults, |t0|, p, q);
    var tail := script[|p + q|..];
    assert script == (p + q) + tail;
    ExecAppend(faults, |t0|, p + q, tail);
    forall t', r | Ran(faults, t, t', q, r)
      ensures Ran(faults, t0, t', p + q, r) && (r.Err? ==> Ran(faults, t0, t', script, r))
    {
      AppendAssoc(t0, p, Exec(faults, |t|, q).issued);
    }
  }

  /** The first `k` transfers of `script` have been sent from `t0`, and every
      one of them succeeded. */
  predicate SentPrefix(faults: map<nat, BusError>, t0: seq<Transfer>, t: seq<Transfer>,
                       script: seq<Transfer>, k: nat)
  {
    k <= |script| && t == t0 + script[..k] && forall j :: |t0| <= j < |t| ==> j !in faults
  }

  /** Sending transfer `k` after a successful prefix: a failure ends the run
      of the whole script, a success extends the prefix. */
  lemma Next(faults: map<nat, BusError>, t0: seq<Transfer>, t: seq<Transfer>,
             script: seq<Transfer>, k: nat)
    requires k < |script|
    requires SentPrefix(faults, t0, t, script, k)
    ensures |t| in faults ==> Ran(faults, t0, t + [script[k]], script, Err(faults[|t|]))
    ensures |t| !in faults ==> SentPrefix(faults, t0, t + [script[k]], script, k + 1)
  {
    assert script == script[..k] + script[k..];
    ExecStopsAtFirstFault(faults, |t0|, script[..k]);
    ExecAppend(faults, |t0|, script[..k], script[k..]);
    assert script[..k + 1] == script[..k] + [script[k]];
  }

  /** A prefix that is the whole script is a complete, successful run. */
  lemma Finish(faults: map<nat, BusError>, t0: seq<Transfer>, t: seq<Transfer>, script: seq<Transfer>)
    requires SentPrefix(faults, t0, t, script, |script|)
    ensures Ran(faults, t0, t, script, Ok)
  {
    assert script[..|script|] == script;
    ExecStopsAtFirstFault(faults, |t0|, script);
  }
}
