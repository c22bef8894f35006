/** The hash chain over canonical bytes (crates/vihs-core/src/chain.rs:63-121). blake3 is any
    function `h`; where a result needs it, `CollisionFree(h)` is a hypothesis. */
module Chain {
  import opened Wrappers
  import opened Json
  import opened Canonical

  const GENESIS: string := "blake3:genesis"
  const U64_LIMIT: int := 0x1_0000_0000_0000_0000

  type Hash = string -> string

  /** The idealised blake3: injective, and never the genesis marker. */
  ghost predicate CollisionFree(h: Hash) {
    && (forall x, y :: h(x) == h(y) ==> x == y)
    && (forall x :: h(x) != GENESIS)
  }

  /** How a chain hashes an event; `compute_hash` is one, for every hash function. */
  type Digest = Value -> Result<string, ChainError>

  function ComputeHash(h: Hash): Digest {
    (event: Value) =>
      match CanonicalBytes(event)
      case Err(e) => Err(e)
      case Ok(bytes) => Ok(h(bytes))
  }

  /** The `hash` member is outside its own preimage. */
  ghost predicate IgnoresHash(d: Digest) {
    forall e: Value, f: Value :: e.Obj? && f.Obj? && Strip(e) == Strip(f) ==> d(e) == d(f)
  }

  /** What the chain needs of its digest: equal hashes mean equal events but for `hash`,
      and no event hashes to the genesis marker. */
  ghost predicate Sound(d: Digest) {
    && IgnoresHash(d)
    && (forall e: Value :: d(e).Ok? ==> e.Obj? && d(e).value != GENESIS)
    && (forall e: Value, f: Value :: d(e).Ok? && d(e) == d(f) ==> Strip(e) == Strip(f))
  }

  lemma ComputeHashSound(h: Hash)
    ensures IgnoresHash(ComputeHash(h))
    ensures CollisionFree(h) ==> Sound(ComputeHash(h))
  {
    var d := ComputeHash(h);
    forall e: Value, f: Value | e.Obj? && f.Obj? && Strip(e) == Strip(f) ensures d(e) == d(f) {
      assert CanonicalBytes(e) == CanonicalBytes(f);
    }
    if CollisionFree(h) {
      forall e: Value ensures d(e).Ok? ==> e.Obj? && d(e).value != GENESIS {
        if d(e).Ok? { CanonicalUnambiguous(e, e); }
      }
      forall e: Value, f: Value | d(e).Ok? && d(e) == d(f) ensures Strip(e) == Strip(f) {
        CanonicalUnambiguous(e, f);
      }
    }
  }

  /** Fill `prev_hash`, then `hash`, over whatever the caller put there. */
  function Seal(d: Digest, body: Value, prev: string): Result<Value, ChainError> {
    if !body.Obj? then Err(NotObject)
    else
      var linked := Obj(body.fields["prev_hash" := Str(prev)]);
      match d(linked)
      case Err(e) => Err(e)
      case Ok(hash) => Ok(Obj(linked.fields["hash" := Str(hash)]))
  }

  function StrField(event: Value, key: string): Option<string> {
    if event.Obj? && key in event.fields && event.fields[key].Str? then Some(event.fields[key].s) else None
  }

  function U64Field(event: Value, key: string): Option<nat> {
    if event.Obj? && key in event.fields && event.fields[key].Num? && 0 <= event.fields[key].n < U64_LIMIT
    then Some(event.fields[key].n) else None
  }

  // ---------------------------------------------------------------- fsck

  /** The checks `fsck` makes on one event, in its order; `Some` is the error it returns. */
  function Fault(d: Digest, event: Value, tip: string, lastTurn: nat, at: nat): Option<ChainError> {
    match StrField(event, "prev_hash")
    case None => Some(MissingField("prev_hash"))
    case Some(prev) =>
      if prev != tip then Some(Torn(at))
      else
        match StrField(event, "hash")
        case None => Some(MissingField("hash"))
        case Some(claimed) =>
          match d(event)
          case Err(e) => Some(e)
          case Ok(computed) =>
            if computed != claimed then Some(BadHash(at))
            else
              match U64Field(event, "turn_id")
              case None => Some(MissingField("turn_id"))
              case Some(t) => if t < lastTurn then Some(TurnRegression(at)) else None
  }

  /** The whole of `fsck` as a loop over the log. */
  method Fsck(d: Digest, log: seq<Value>) returns (r: Result<(nat, string), ChainError>)
    ensures r.Ok? <==> Accepted(d, log)
    ensures r.Ok? ==> r.value == (|log|, TipOf(log))
    ensures r.Err? ==> exists k :: 0 <= k < |log| && FaultAt(d, log, k) == Some(r.error)
  {
    var n, tip, lastTurn := 0, GENESIS, 0;
    while n < |log|
      invariant 0 <= n <= |log|
      invariant Accepted(d, log[..n])
      invariant tip == TipOf(log[..n]) && lastTurn == LastTurn(log[..n])
    {
      var event := log[n];
      assert log[..n + 1][..n] == log[..n];
      var fault := Fault(d, event, tip, lastTurn, n);
      if fault.Some? {
        assert FaultAt(d, log, n) == fault;
        if Accepted(d, log) { AcceptedPrefix(d, log, n + 1); }
        return Err(fault.value);
      }
      lastTurn := U64Field(event, "turn_id").value;
      tip := StrField(event, "hash").value;
      n := n + 1;
    }
    assert log[..n] == log;
    r := Ok((n, tip));
  }

  /** The error of event `k`, when the events before it are accepted. */
  function FaultAt(d: Digest, log: seq<Value>, k: nat): Option<ChainError>
    requires k < |log|
  {
    if Accepted(d, log[..k]) then Fault(d, log[k], TipOf(log[..k]), LastTurn(log[..k]), k) else None
  }

  function TipOf(log: seq<Value>): string {
    if log == [] then GENESIS
    else match StrField(log[|log| - 1], "hash") case Some(t) => t case None => ""
  }

  function LastTurn(log: seq<Value>): nat {
    if log == [] then 0
    else match U64Field(log[|log| - 1], "turn_id") case Some(t) => t case None => 0
  }

  /** Every event of the log passes its checks after the events before it. */
  predicate Accepted(d: Digest, log: seq<Value>) {
    log == [] ||
    var n := |log| - 1;
    Accepted(d, log[..n]) && Fault(d, log[n], TipOf(log[..n]), LastTurn(log[..n]), n).None?
  }

  lemma {:induction false} AcceptedPrefix(d: Digest, log: seq<Value>, k: nat)
    requires Accepted(d, log) && k <= |log|
    ensures Accepted(d, log[..k])
  {
    if k < |log| {
      var front := log[..|log| - 1];
      AcceptedPrefix(d, front, k);
      assert front[..k] == log[..k];
    } else {
      assert log[..k] == log;
    }
  }

  /** The rules as the documentation states them: linked from genesis, hashes recompute,
      turn ids never fall. */
  ghost predicate WellChained(d: Digest, log: seq<Value>) {
    forall i | 0 <= i < |log| :: LinkedAt(d, log, i)
  }

  predicate LinkedAt(d: Digest, log: seq<Value>, i: nat)
    requires i < |log|
  {
    if i == 0 then Linked(d, log[0], GENESIS, 0)
    else Linked(d, log[i], TipOf([log[i - 1]]), LastTurn([log[i - 1]]))
  }

  predicate Linked(d: Digest, event: Value, prev: string, turn: nat) {
    && StrField(event, "prev_hash") == Some(prev)
    && StrField(event, "hash").Some?
    && d(event) == Ok(StrField(event, "hash").value)
    && U64Field(event, "turn_id").Some?
    && turn <= U64Field(event, "turn_id").value
  }

  lemma FaultMeaning(d: Digest, event: Value, tip: string, lastTurn: nat, at: nat)
    ensures Fault(d, event, tip, lastTurn, at).None? <==> Linked(d, event, tip, lastTurn)
  {}

  lemma WellChainedSnoc(d: Digest, log: seq<Value>, event: Value)
    ensures WellChained(d, log + [event]) <==>
      WellChained(d, log) && Linked(d, event, TipOf(log), LastTurn(log))
  {
    var all := log + [event];
    assert forall i | 0 <= i < |log| :: LinkedAt(d, all, i) == LinkedAt(d, log, i);
    assert LinkedAt(d, all, |log|) == Linked(d, event, TipOf(log), LastTurn(log));
  }

  lemma {:induction false} AcceptedMeaning(d: Digest, log: seq<Value>)
    ensures Accepted(d, log) <==> WellChained(d, log)
  {
    if log != [] {
      var n := |log| - 1;
      AcceptedMeaning(d, log[..n]);
      FaultMeaning(d, log[n], TipOf(log[..n]), LastTurn(log[..n]), n);
      WellChainedSnoc(d, log[..n], log[n]);
      assert log == log[..n] + [log[n]];
    }
  }

  /** Turn ids of an accepted log never fall, so the last one is the greatest. */
  lemma {:induction false} LastTurnIsGreatest(d: Digest, log: seq<Value>)
    requires Accepted(d, log)
    ensures forall e <- log :: U64Field(e, "turn_id").Some? && U64Field(e, "turn_id").value <= LastTurn(log)
  {
    if log != [] {
      var n := |log| - 1;
      assert log == log[..n] + [log[n]];
      AcceptedLink(d, log, log[..n], log[n]);
      LastTurnIsGreatest(d, log[..n]);
    }
  }

  // ---------------------------------------------------------------- sealing

  lemma SealFields(d: Digest, body: Value, prev: string)
    requires IgnoresHash(d) && Seal(d, body, prev).Ok?
    ensures var sealed := Seal(d, body, prev).value;
      && StrField(sealed, "prev_hash") == Some(prev)
      && StrField(sealed, "hash").Some?
      && d(sealed) == Ok(StrField(sealed, "hash").value)
      && U64Field(sealed, "turn_id") == U64Field(body, "turn_id")
      && sealed.fields - {"prev_hash", "hash"} == body.fields - {"prev_hash", "hash"}
  {
    var linked := Obj(body.fields["prev_hash" := Str(prev)]);
    assert Strip(Seal(d, body, prev).value) == Strip(linked);
  }

  /** Sealing a body onto the tip of an accepted log keeps it accepted exactly when the body
      carries a u64 turn id that does not fall below the log's last one. */
  lemma SealExtends(d: Digest, log: seq<Value>, body: Value)
    requires IgnoresHash(d) && Accepted(d, log) && Seal(d, body, TipOf(log)).Ok?
    ensures var sealed := Seal(d, body, TipOf(log)).value;
      Accepted(d, log + [sealed]) <==>
        U64Field(body, "turn_id").Some? && LastTurn(log) <= U64Field(body, "turn_id").value
  {
    var sealed := Seal(d, body, TipOf(log)).value;
    SealedFault(d, body, TipOf(log), LastTurn(log), |log|);
    AcceptedSnoc(d, log, sealed);
  }

  lemma AcceptedSnoc(d: Digest, log: seq<Value>, event: Value)
    ensures Accepted(d, log + [event]) <==>
      Accepted(d, log) && Fault(d, event, TipOf(log), LastTurn(log), |log|).None?
    ensures TipOf(log + [event]) == TipOf([event]) && LastTurn(log + [event]) == LastTurn([event])
  {
    AcceptedLast(d, log + [event], log, event);
    TipSnoc(log + [event], event);
  }

  lemma AcceptedLast(d: Digest, all: seq<Value>, log: seq<Value>, event: Value)
    requires all == log + [event]
    ensures Accepted(d, all) <==> Accepted(d, log) && Fault(d, event, TipOf(log), LastTurn(log), |log|).None?
  {
    assert all[..|all| - 1] == log && all[|all| - 1] == event;
  }

  lemma TipSnoc(all: seq<Value>, event: Value)
    requires all != [] && all[|all| - 1] == event
    ensures TipOf(all) == TipOf([event]) && LastTurn(all) == LastTurn([event])
  {}

  /** The last event of an accepted log links to the tip of what came before it. */
  lemma AcceptedLink(d: Digest, log: seq<Value>, before: seq<Value>, event: Value)
    requires Accepted(d, log) && log == before + [event]
    ensures Accepted(d, before) && Linked(d, event, TipOf(before), LastTurn(before))
    ensures StrField(event, "hash") == Some(TipOf(log)) && d(event) == Ok(TipOf(log))
    ensures U64Field(event, "turn_id") == Some(LastTurn(log))
  {
    AcceptedLast(d, log, before, event);
    FaultMeaning(d, event, TipOf(before), LastTurn(before), |before|);
    TipSnoc(log, event);
  }

  lemma SealedFault(d: Digest, body: Value, tip: string, lastTurn: nat, at: nat)
    requires IgnoresHash(d) && Seal(d, body, tip).Ok?
    ensures Fault(d, Seal(d, body, tip).value, tip, lastTurn, at).None? <==>
      U64Field(body, "turn_id").Some? && lastTurn <= U64Field(body, "turn_id").value
  {
    SealFields(d, body, tip);
  }

  // ---------------------------------------------------------------- tamper evidence

  lemma SameButHash(x: Value, y: Value)
    requires x.Obj? && y.Obj? && Strip(x) == Strip(y)
    requires "hash" in x.fields && "hash" in y.fields && x.fields["hash"] == y.fields["hash"]
    ensures x == y
  {
    assert x.fields == Strip(x).fields["hash" := x.fields["hash"]];
    assert y.fields == Strip(y).fields["hash" := y.fields["hash"]];
  }

  lemma SameHashSameEvent(d: Digest, x: Value, y: Value, tip: string)
    requires Sound(d) && d(x) == Ok(tip) && d(y) == Ok(tip)
    requires StrField(x, "hash") == Some(tip) && StrField(y, "hash") == Some(tip)
    ensures x == y
  {
    SameButHash(x, y);
  }

  lemma LastEventOfTip(d: Digest, a: seq<Value>, b: seq<Value>, p: seq<Value>, q: seq<Value>, x: Value, y: Value)
    requires Sound(d) && Accepted(d, a) && Accepted(d, b) && TipOf(a) == TipOf(b)
    requires a == p + [x] && b == q + [y]
    ensures x == y && Accepted(d, p) && Accepted(d, q) && TipOf(p) == TipOf(q)
  {
    AcceptedLink(d, a, p, x);
    AcceptedLink(d, b, q, y);
    SameHashSameEvent(d, x, y, TipOf(a));
  }

  lemma OnlyEmptyAtGenesis(d: Digest, log: seq<Value>)
    requires Sound(d) && Accepted(d, log) && log != []
    ensures TipOf(log) != GENESIS
  {
    var n := |log| - 1;
    assert log == log[..n] + [log[n]];
    AcceptedLink(d, log, log[..n], log[n]);
  }

  lemma TipStep(d: Digest, a: seq<Value>, b: seq<Value>)
    requires Sound(d) && Accepted(d, a) && Accepted(d, b) && TipOf(a) == TipOf(b) && a != [] && b != []
    ensures var p, q := a[..|a| - 1], b[..|b| - 1];
      Accepted(d, p) && Accepted(d, q) && TipOf(p) == TipOf(q) && (p == q ==> a == b)
  {
    SplitLast(a);
    SplitLast(b);
    LastEventOfTip(d, a, b, a[..|a| - 1], b[..|b| - 1], a[|a| - 1], b[|b| - 1]);
  }

  lemma SplitLast(log: seq<Value>)
    requires log != []
    ensures log == log[..|log| - 1] + [log[|log| - 1]]
  {}

  /** The tip fixes the log: two accepted logs with the same tip are the same log. */
  lemma {:induction false} TipFixesLog(d: Digest, a: seq<Value>, b: seq<Value>)
    requires Sound(d) && Accepted(d, a) && Accepted(d, b) && TipOf(a) == TipOf(b)
    ensures a == b
  {
    if a != [] { OnlyEmptyAtGenesis(d, a); }
    if b != [] { OnlyEmptyAtGenesis(d, b); }
    if a != [] && b != [] {
      TipStep(d, a, b);
      TipFixesLog(d, a[..|a| - 1], b[..|b| - 1]);
    }
  }

  /** Along one accepted log no tip is ever repeated. */
  lemma TipsDistinct(d: Digest, log: seq<Value>, i: nat, j: nat)
    requires Sound(d) && Accepted(d, log) && i <= |log| && j <= |log|
    requires TipOf(log[..i]) == TipOf(log[..j])
    ensures i == j
  {
    AcceptedPrefix(d, log, i);
    AcceptedPrefix(d, log, j);
    TipFixesLog(d, log[..i], log[..j]);
  }
}
