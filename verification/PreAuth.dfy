/**
 * The pre-auth cache of server/src/main.rs: the manager announces a client UUID, the client may use it once within
 * the time to live, and a background task purges old announcements. Times are in milliseconds and never decrease.
 */
module PreAuth {
  import opened Base
  import opened Wire

  const TTL_SECS: nat := 10
  const GRACE_SECS: nat := 5

  type Cache = map<Text, nat>

  datatype Verdict = Accepted | InvalidSecret | NotPreAuthorized | PreAuthExpired | ExpectedAuth | MalformedFrame

  /** Whole seconds since `since`; a clock that is behind reads as zero. */
  function ElapsedSecs(since: nat, now: nat): nat {
    if since <= now then (now - since) / 1000 else 0
  }

  // ---------------------------------------------------------------- the cache

  function Verify(c: Cache, validSecret: bool, uuid: Option<Text>, now: nat): Verdict {
    if !validSecret then InvalidSecret
    else if uuid.None? then Accepted
    else if uuid.value !in c then NotPreAuthorized
    else if ElapsedSecs(c[uuid.value], now) < TTL_SECS then Accepted
    else PreAuthExpired
  }

  /** A valid secret uses up the announcement, whether it was still good or not. */
  function Consume(c: Cache, validSecret: bool, uuid: Option<Text>): Cache {
    if validSecret && uuid.Some? then c - {uuid.value} else c
  }

  function Purge(c: Cache, now: nat): Cache {
    map uuid | uuid in c && ElapsedSecs(c[uuid], now) < TTL_SECS + GRACE_SECS :: c[uuid]
  }

  /** Bitwise exclusive or. */
  function Xor(a: nat, b: nat): nat
    decreases a + b
  {
    if a == 0 && b == 0 then 0 else (if a % 2 == b % 2 then 0 else 1) + 2 * Xor(a / 2, b / 2)
  }

  /** Bitwise or. */
  function Or(a: nat, b: nat): nat
    decreases a + b
  {
    if a == 0 && b == 0 then 0 else (if a % 2 == 0 && b % 2 == 0 then 0 else 1) + 2 * Or(a / 2, b / 2)
  }

  lemma {:induction false} XorZero(a: nat, b: nat)
    ensures Xor(a, b) == 0 <==> a == b
    decreases a + b
  {
    if a != 0 || b != 0 {
      XorZero(a / 2, b / 2);
    }
  }

  lemma {:induction false} OrZero(a: nat, b: nat)
    ensures Or(a, b) == 0 <==> a == 0 && b == 0
    decreases a + b
  {
    if a != 0 || b != 0 {
      OrZero(a / 2, b / 2);
    }
  }

  /** Equality in constant time: the differing bits are collected without stopping at the first difference. */
  method CompareSecrets(expected: Bytes, provided: Bytes) returns (valid: bool)
    ensures valid <==> expected == provided
  {
    hide Xor, Or;
    if |expected| != |provided| {
      return false;
    }
    var acc: nat := 0;
    for i := 0 to |expected|
      invariant acc == 0 <==> expected[..i] == provided[..i]
    {
      XorZero(expected[i], provided[i]);
      OrZero(acc, Xor(expected[i], provided[i]));
      assert expected[..i + 1] == expected[..i] + [expected[i]] && provided[..i + 1] == provided[..i] + [provided[i]];
      acc := Or(acc, Xor(expected[i], provided[i]));
    }
    assert expected[..|expected|] == expected && provided[..|provided|] == provided;
    return acc == 0;
  }

  class PreAuthCache {
    var entries: Cache

    constructor ()
      ensures entries == map[]
    {
      entries := map[];
    }

    method Announce(uuid: Text, now: nat)
      modifies this
      ensures entries == old(entries)[uuid := now]
    {
      entries := entries[uuid := now];
    }

    method Authenticate(validSecret: bool, uuid: Option<Text>, now: nat) returns (verdict: Verdict)
      modifies this
      ensures verdict == Verify(old(entries), validSecret, uuid, now)
      ensures entries == Consume(old(entries), validSecret, uuid)
    {
      if !validSecret {
        return InvalidSecret;
      }
      if uuid.Some? {
        if uuid.value in entries {
          var ts := entries[uuid.value];
          entries := entries - {uuid.value};
          if ElapsedSecs(ts, now) >= TTL_SECS {
            return PreAuthExpired;
          }
        } else {
          return NotPreAuthorized;
        }
      }
      return Accepted;
    }

    /** The first frame of a connection. */
    method GreetClient(expected: Text, first: Result<Frame, WireError>, now: nat) returns (verdict: Verdict)
      modifies this
      ensures verdict == Greet(expected, old(entries), first, now)
      ensures entries ==
        match first
        case Ok(Control(Auth(secret, Some(uuid)))) => if secret == expected then old(entries) - {uuid} else old(entries)
        case _ => old(entries)
    {
      match first {
        case Err(_) => return MalformedFrame;
        case Ok(Control(Auth(secret, uuid))) =>
          var valid := CompareSecrets(expected, secret);
          verdict := Authenticate(valid, uuid, now);
        case Ok(_) => return ExpectedAuth;
      }
    }

    method CleanUp(now: nat) returns (removed: nat)
      modifies this
      ensures entries == Purge(old(entries), now)
      ensures forall uuid :: uuid in entries <==> uuid in old(entries) && now < old(entries)[uuid] + 15_000
      ensures removed == |old(entries)| - |entries|
    {
      var kept :=
        map uuid | uuid in entries && ElapsedSecs(entries[uuid], now) < TTL_SECS + GRACE_SECS :: entries[uuid];
      assert |kept| <= |entries| by {
        SubsetSize(kept.Keys, entries.Keys);
        assert |kept.Keys| == |kept| && |entries.Keys| == |entries|;
      }
      removed := |entries| - |kept|;
      entries := kept;
    }
  }

  lemma {:induction false} SubsetSize<T>(a: set<T>, b: set<T>)
    requires a <= b
    ensures |a| <= |b|
  {
    if x :| x in a {
      SubsetSize(a - {x}, b - {x});
    }
  }

  // ---------------------------------------------------------------- the log of what happened

  datatype Event =
    | Announced(uuid: Text, now: nat)
    | Authenticated(validSecret: bool, claim: Option<Text>, now: nat)
    | CleanedUp(now: nat)

  predicate Monotone(log: seq<Event>) {
    forall i, j :: 0 <= i < j < |log| ==> log[i].now <= log[j].now
  }

  function After(log: seq<Event>): Cache {
    if log == [] then map[] else
    var c := After(log[..|log| - 1]);
    match log[|log| - 1]
    case Announced(uuid, now) => c[uuid := now]
    case Authenticated(valid, claim, _) => Consume(c, valid, claim)
    case CleanedUp(now) => Purge(c, now)
  }

  /** Whether the event says anything about the UUID: an announcement, or its use with a valid secret. */
  predicate Touches(e: Event, uuid: Text) {
    match e
    case Announced(u, _) => u == uuid
    case Authenticated(valid, claim, _) => valid && claim == Some(uuid)
    case CleanedUp(_) => false
  }

  /** The position of the latest event about the UUID. No cache, no cleanup. */
  function Latest(log: seq<Event>, uuid: Text): (r: Option<nat>)
    ensures r.Some? ==> r.value < |log| && Touches(log[r.value], uuid)
    ensures r.Some? ==> forall i | r.value < i < |log| :: !Touches(log[i], uuid)
    ensures r.None? ==> forall i | 0 <= i < |log| :: !Touches(log[i], uuid)
  {
    if log == [] then None
    else if Touches(log[|log| - 1], uuid) then Some(|log| - 1)
    else Latest(log[..|log| - 1], uuid)
  }

  function LatestEvent(log: seq<Event>, uuid: Text): Option<Event> {
    var at := Latest(log, uuid);
    if at.Some? then Some(log[at.value]) else None
  }

  /** The reference decision: the latest event about the UUID is an announcement less than ten seconds old. */
  predicate Granted(log: seq<Event>, uuid: Text, now: nat) {
    var latest := LatestEvent(log, uuid);
    latest.Some? && latest.value.Announced? && now < latest.value.now + 10_000
  }

  /** What the cache holds is the latest announcement, and it is missing only if used, superseded or old enough. */
  lemma {:induction false} CacheFollowsLog(log: seq<Event>, uuid: Text, now: nat)
    requires Monotone(log) && forall i | 0 <= i < |log| :: log[i].now <= now
    ensures var c, at := After(log), Latest(log, uuid);
      && (uuid in c ==> at.Some? && log[at.value] == Announced(uuid, c[uuid]))
      && (uuid !in c && at.Some? && log[at.value].Announced? ==>
            log[at.value].now + 15_000 <= now)
  {
    if log != [] {
      CacheFollowsLog(log[..|log| - 1], uuid, log[|log| - 1].now);
    }
  }

  /** Over every run of announcements, authentications and cleanups, the cache decides as the log does. */
  lemma {:induction false} AcceptedExactly(log: seq<Event>, uuid: Text, now: nat)
    requires Monotone(log) && forall i | 0 <= i < |log| :: log[i].now <= now
    ensures Verify(After(log), true, Some(uuid), now) == Accepted <==> Granted(log, uuid, now)
  {
    CacheFollowsLog(log, uuid, now);
  }

  // ---------------------------------------------------------------- cleanup is invisible

  function WithoutCleanups(log: seq<Event>): (r: seq<Event>)
    ensures |r| <= |log|
  {
    if log == [] then [] else
    var last := log[|log| - 1];
    WithoutCleanups(log[..|log| - 1]) + if last.CleanedUp? then [] else [last]
  }

  lemma {:induction false} WithoutCleanupsInOrder(log: seq<Event>, now: nat)
    requires Monotone(log) && forall i | 0 <= i < |log| :: log[i].now <= now
    ensures var short := WithoutCleanups(log);
      Monotone(short) && forall i | 0 <= i < |short| :: short[i].now <= now
  {
    if log != [] {
      WithoutCleanupsInOrder(log[..|log| - 1], log[|log| - 1].now);
    }
  }

  lemma {:induction false} SameLatest(log: seq<Event>, uuid: Text)
    ensures LatestEvent(WithoutCleanups(log), uuid) == LatestEvent(log, uuid)
  {
    if log != [] {
      var n, last := |log| - 1, log[|log| - 1];
      SameLatest(log[..n], uuid);
      LatestNext(WithoutCleanups(log[..n]), last, uuid);
      LatestNext(log[..n], last, uuid);
      assert log == log[..n] + [last];
      assert last.CleanedUp? ==> !Touches(last, uuid);
      hide Touches, LatestEvent;
      assert WithoutCleanups(log) == WithoutCleanups(log[..n]) + if last.CleanedUp? then [] else [last];
      assert WithoutCleanups(log[..n]) + [] == WithoutCleanups(log[..n]);
    }
  }

  lemma LatestNext(log: seq<Event>, e: Event, uuid: Text)
    ensures LatestEvent(log + [e], uuid) == if Touches(e, uuid) then Some(e) else LatestEvent(log, uuid)
  {
    assert (log + [e])[..|log|] == log;
  }

  /** Running the cleanup task, however often and whenever, accepts the same clients as never running it. */
  lemma {:induction false} CleanupChangesNoDecision(log: seq<Event>, validSecret: bool, claim: Option<Text>, now: nat)
    requires Monotone(log) && forall i | 0 <= i < |log| :: log[i].now <= now
    ensures Verify(After(log), validSecret, claim, now) == Accepted
      <==> Verify(After(WithoutCleanups(log)), validSecret, claim, now) == Accepted
  {
    if claim.Some? {
      AcceptedExactly(log, claim.value, now);
      WithoutCleanupsInOrder(log, now);
      SameLatest(log, claim.value);
      AcceptedExactly(WithoutCleanups(log), claim.value, now);
    }
  }

  // ---------------------------------------------------------------- one use per announcement

  /** Event `i` is a client let in on the strength of its UUID. */
  predicate LetIn(log: seq<Event>, i: nat)
    requires i < |log|
  {
    log[i].Authenticated? && log[i].claim.Some? &&
    Verify(After(log[..i]), log[i].validSecret, log[i].claim, log[i].now) == Accepted
  }

  /** Every client let in used an announcement of its UUID less than ten seconds old. */
  lemma {:induction false} UsesAnAnnouncement(log: seq<Event>, i: nat)
    requires Monotone(log) && i < |log| && LetIn(log, i)
    ensures var uuid := log[i].claim.value;
      var at := Latest(log[..i], uuid);
      at.Some? && log[at.value].Announced? && log[at.value].uuid == uuid
      && log[i].now < log[at.value].now + 10_000
  {
    AcceptedExactly(log[..i], log[i].claim.value, log[i].now);
  }

  /** It is used up: the next client let in with that UUID used an announcement made after the first was let in. */
  lemma AnnouncementIsUsedUp(log: seq<Event>, i: nat, k: nat)
    requires Monotone(log) && i < k < |log| && LetIn(log, i) && LetIn(log, k)
    requires log[i].claim == log[k].claim
    ensures var at := Latest(log[..k], log[k].claim.value);
      at.Some? && log[at.value].Announced? && i < at.value < k
  {
    UsesAnAnnouncement(log, k);
    assert Touches(log[..k][i], log[k].claim.value);
  }

  // ---------------------------------------------------------------- the handshake

  /** What the server makes of the first frame of a connection, or of the error in reading it. */
  function Greet(expected: Text, c: Cache, first: Result<Frame, WireError>, now: nat): Verdict {
    match first
    case Err(_) => MalformedFrame
    case Ok(Control(Auth(secret, uuid))) => Verify(c, expected == secret, uuid, now)
    case Ok(_) => ExpectedAuth
  }

  /**
   * A client is let in exactly when its first frame is an Auth message with the server's secret, and with no UUID or
   * with one announced less than 10,000 milliseconds ago.
   */
  lemma GreetedExactly(expected: Text, c: Cache, first: Result<Frame, WireError>, now: nat)
    ensures Greet(expected, c, first, now) == Accepted <==>
      && first.Ok? && first.value.Control? && first.value.msg.Auth?
      && first.value.msg.secret == expected
      && match first.value.msg.clientUuid
         case None => true
         case Some(uuid) => uuid in c && now < c[uuid] + 10_000
  {
  }

  /** Every other first frame is refused for the reason that applies first. */
  lemma RefusedExactly(expected: Text, c: Cache, first: Result<Frame, WireError>, now: nat)
    ensures Greet(expected, c, first, now) == MalformedFrame <==> first.Err?
    ensures Greet(expected, c, first, now) == ExpectedAuth <==>
      first.Ok? && !(first.value.Control? && first.value.msg.Auth?)
    ensures first.Ok? && first.value.Control? && first.value.msg.Auth? ==>
      var m, verdict := first.value.msg, Greet(expected, c, first, now);
      && (verdict == InvalidSecret <==> m.secret != expected)
      && (verdict == NotPreAuthorized <==>
            m.secret == expected && m.clientUuid.Some? && m.clientUuid.value !in c)
      && (verdict == PreAuthExpired <==>
            && m.secret == expected && m.clientUuid.Some? && m.clientUuid.value in c
            && c[m.clientUuid.value] + 10_000 <= now)
  {
  }

  /** What the server reads when the client has sent `m`, with the bytes `rest` after it. */
  function FirstFrame(m: Message, rest: Bytes): Result<Frame, WireError> {
    match ParseFrame(FrameBytes(Control(m)) + rest)
    case Ok((f, _)) => Ok(f)
    case Err(e) => Err(e)
  }

  function Received(m: Message): Result<Frame, WireError> {
    match Decode(Encode(m))
    case Ok(n) => Ok(Control(n))
    case Err(e) => Err(e)
  }

  /** Whatever the server's secret, its cache and the time, it decides on `first` as it would on `m` itself. */
  ghost predicate SameVerdict(m: Message, first: Result<Frame, WireError>) {
    forall expected: Text, c: Cache, now: nat ::
      Greet(expected, c, first, now) == Greet(expected, c, Ok(Control(m)), now)
  }

  /** No two different Auth messages are treated alike. */
  lemma VerdictShowsMessage(m: Message, first: Result<Frame, WireError>)
    requires m.Auth?
    ensures SameVerdict(m, first) <==> first == Ok(Control(m))
  {
    if first != Ok(Control(m)) {
      var acceptedBy: Cache := if m.clientUuid.Some? then map[m.clientUuid.value := 0] else map[];
      assert Greet(m.secret, acceptedBy, Ok(Control(m)), 0) == Accepted;
      if first.Ok? && first.value.Control? && first.value.msg.Auth? {
        var n := first.value.msg;
        if n.secret == m.secret && n.clientUuid.None? {
          assert Greet(m.secret, map[], first, 0) == Accepted;
          assert Greet(m.secret, map[], Ok(Control(m)), 0) == NotPreAuthorized;
        } else {
          assert Greet(m.secret, acceptedBy, first, 0) != Accepted;
        }
      } else {
        assert Greet(m.secret, acceptedBy, first, 0) != Accepted;
      }
    }
  }

  /** The verdict on what is decoded is the verdict on what was sent exactly for the faithful messages. */
  lemma VerdictSurvivesCodec(m: Message)
    requires m.Auth?
    ensures SameVerdict(m, Received(m)) <==> Faithful(m)
  {
    VerdictShowsMessage(m, Received(m));
    RoundTripExactly(m);
  }

  /** The same for the frame on the wire, whatever follows it: the message must also fit a frame. */
  lemma VerdictSurvivesWire(m: Message, rest: Bytes)
    requires m.Auth?
    ensures SameVerdict(m, FirstFrame(m, rest)) <==> FaithfulFrame(Control(m))
  {
    VerdictShowsMessage(m, FirstFrame(m, rest));
    FrameRoundTripExactly(Control(m), rest);
    if FirstFrame(m, rest) == Ok(Control(m)) {
      ReadFrameIsWhole(m, rest);
    }
  }

  /** An Auth message that is read back as it was sent fills its frame, so nothing of it is left over. */
  lemma ReadFrameIsWhole(m: Message, rest: Bytes)
    requires m.Auth? && FirstFrame(m, rest) == Ok(Control(m))
    ensures ParseFrame(FrameBytes(Control(m)) + rest) == Ok((Control(m), rest))
  {
    hide Encode, Decode, Header;
    var f, len := Control(m), WireLength(Control(m));
    FrameRead(f, rest);
    if |WirePayload(f)| <= MAX_PAYLOAD_SIZE {
      ParseWholePayload(len, CONTROL_STREAM, WirePayload(f), rest);
    } else {
      var payload := (WirePayload(f) + rest)[..len];
      DecodedFills(payload);
    }
  }

  lemma DecodedFills(payload: Bytes)
    requires Decode(payload).Ok? && Decode(payload).value.Auth?
    ensures |Encode(Decode(payload).value)| == |payload|
  {
    AcceptedAuth(payload[1..]);
  }

  /**
   * An empty UUID is read back as none, and a client that names no UUID is not held against the cache: with nothing
   * announced, the message as sent is refused and the message as received is accepted.
   */
  lemma EmptyUuidIsNotChecked(secret: Text, now: nat)
    ensures var m := Auth(secret, Some([]));
      && Received(m) == Ok(Control(Auth(secret, None)))
      && Greet(secret, map[], Ok(Control(m)), now) == NotPreAuthorized
      && Greet(secret, map[], Received(m), now) == Accepted
  {
    DecodeEncode(Auth(secret, Some([])));
  }
}
