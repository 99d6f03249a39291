/**
  Token-bucket limits for actuator commands. Idle buckets are evicted, and
  callers read the clock before they take the lock, so the times the limiter
  sees may step back by as long as a caller can be held up.
 */
module RateLimiter {
  import opened Basics

  datatype CommandBucket = Tuning | Motion | Diagnostics | StatusPoll | Testing

  const BUCKET_TTL := 600.0

  datatype BucketConfig = BucketConfig(burst: real, refillPerSec: real)

  function ConfigOf(bucket: CommandBucket): BucketConfig {
    match bucket
    case Tuning => BucketConfig(10.0, 10.0)
    case Motion => BucketConfig(2.0, 2.0)
    case Diagnostics => BucketConfig(20.0, 20.0)
    case StatusPoll => BucketConfig(2.0, 0.5)
    case Testing => BucketConfig(40.0, 20.0)
  }

  function KindName(bucket: CommandBucket): string {
    match bucket
    case Tuning => "tuning"
    case Motion => "motion"
    case Diagnostics => "diagnostics"
    case StatusPoll => "status_poll"
    case Testing => "testing"
  }

  /** What of the caller the bucket is kept per. */
  function Scope(client: string, joint: string, bucket: CommandBucket): string {
    match bucket
    case Tuning => client + ":" + joint
    case StatusPoll => "__global__"
    case _ => "__global__:" + joint
  }

  function BucketKey(client: string, joint: string, bucket: CommandBucket): string {
    Scope(client, joint, bucket) + ":" + KindName(bucket)
  }

  // ----- One bucket

  datatype TokenBucket = TokenBucket(config: BucketConfig, tokens: real, lastRefill: real, lastTouch: real)

  function NewBucket(config: BucketConfig, now: real): TokenBucket {
    TokenBucket(config, config.burst, now, now)
  }

  function Min(a: real, b: real): real {
    if a < b then a else b
  }

  function Max(a: real, b: real): real {
    if a < b then b else a
  }

  function Gain(config: BucketConfig, elapsed: real): real {
    elapsed * config.refillPerSec
  }

  function Refilled(b: TokenBucket, now: real): TokenBucket {
    if now <= b.lastRefill then b
    else b.(tokens := Min(b.tokens + Gain(b.config, now - b.lastRefill), b.config.burst), lastRefill := now)
  }

  function Consumed(b: TokenBucket, now: real): TokenBucket {
    var r := Refilled(b, now).(lastTouch := now);
    if r.tokens >= 1.0 then r.(tokens := r.tokens - 1.0) else r
  }

  function Refunded(b: TokenBucket, now: real): TokenBucket {
    var r := Refilled(b, now).(lastTouch := now);
    r.(tokens := Min(r.tokens + 1.0, r.config.burst))
  }

  // ----- The map of buckets

  type Buckets = map<string, TokenBucket>

  /** `retain`: a bucket whose touch lies in the future counts as just touched. */
  function Retained(buckets: Buckets, now: real): Buckets {
    map key | key in buckets && now - buckets[key].lastTouch < BUCKET_TTL :: buckets[key]
  }

  function BucketOr(buckets: Buckets, key: string, config: BucketConfig, now: real): TokenBucket {
    if key in buckets then buckets[key] else NewBucket(config, now)
  }

  datatype Op = Allow(client: string, joint: string, bucket: CommandBucket, now: real)
              | Refund(client: string, joint: string, bucket: CommandBucket, now: real)

  function KeyOf(op: Op): string {
    BucketKey(op.client, op.joint, op.bucket)
  }

  /** The answer to one call; a refund answers nothing. */
  function Answer(buckets: Buckets, op: Op, evicting: bool): bool {
    op.Allow? && !Blank(op.client)
    && var kept := if evicting then Retained(buckets, op.now) else buckets;
       Refilled(BucketOr(kept, KeyOf(op), ConfigOf(op.bucket), op.now), op.now).tokens >= 1.0
  }

  /** The buckets after one call. Only `allow` evicts; a refund to an absent key does nothing. */
  function After(buckets: Buckets, op: Op, evicting: bool): Buckets {
    if Blank(op.client) then buckets
    else if op.Allow? then
      var kept := if evicting then Retained(buckets, op.now) else buckets;
      kept[KeyOf(op) := Consumed(BucketOr(kept, KeyOf(op), ConfigOf(op.bucket), op.now), op.now)]
    else if KeyOf(op) in buckets then
      buckets[KeyOf(op) := Refunded(buckets[KeyOf(op)], op.now)]
    else buckets
  }

  class Limiter {
    var buckets: Buckets

    constructor ()
      ensures buckets == map[]
    {
      buckets := map[];
    }

    method EvictStale(now: real)
      modifies this
      ensures buckets == Retained(old(buckets), now)
      ensures forall key :: key in buckets <==> key in old(buckets) && now - old(buckets)[key].lastTouch < 600.0
    {
      buckets := map key | key in buckets && now - buckets[key].lastTouch < BUCKET_TTL :: buckets[key];
    }

    /** True when the request is allowed; false when rate-limited. */
    method AllowRequest(client: string, joint: string, bucket: CommandBucket, now: real) returns (allowed: bool)
      modifies this
      ensures allowed == Answer(old(buckets), Allow(client, joint, bucket, now), true)
      ensures buckets == After(old(buckets), Allow(client, joint, bucket, now), true)
    {
      if Blank(client) {
        return false;
      }
      var key := BucketKey(client, joint, bucket);
      EvictStale(now);
      if key !in buckets {
        buckets := buckets[key := NewBucket(ConfigOf(bucket), now)];
      }
      var entry := Refilled(buckets[key], now).(lastTouch := now);
      allowed := entry.tokens >= 1.0;
      if allowed {
        entry := entry.(tokens := entry.tokens - 1.0);
      }
      buckets := buckets[key := entry];
    }

    /** Give one token back after a failed publish. */
    method RefundRequest(client: string, joint: string, bucket: CommandBucket, now: real)
      modifies this
      ensures buckets == After(old(buckets), Refund(client, joint, bucket, now), true)
    {
      if Blank(client) {
        return;
      }
      var key := BucketKey(client, joint, bucket);
      if key in buckets {
        buckets := buckets[key := Refunded(buckets[key], now)];
      }
    }
  }

  // ----- Keys

  predicate NoColon(s: string) {
    forall i | 0 <= i < |s| :: s[i] != ':'
  }

  lemma {:induction false} ColonsLineUp(a: string, x: string, b: string, y: string)
    requires NoColon(y) && a + ":" + x == b + ":" + y
    ensures |x| >= |y|
  {
    var s := a + ":" + x;
    assert s[|a|] == ':';
    assert forall i | |b| < i < |s| :: s[i] == y[i - |b| - 1];
  }

  lemma {:induction false} SplitAtLastColon(a: string, x: string, b: string, y: string)
    requires NoColon(x) && NoColon(y) && a + ":" + x == b + ":" + y
    ensures a == b && x == y
  {
    ColonsLineUp(a, x, b, y);
    ColonsLineUp(b, y, a, x);
    var s := a + ":" + x;
    assert a == s[..|a|] && b == s[..|b|];
    assert x == s[|a| + 1..] && y == s[|b| + 1..];
  }

  lemma {:induction false} KindNamesDiffer(bucket: CommandBucket, other: CommandBucket)
    ensures NoColon(KindName(bucket))
    ensures KindName(bucket) == KindName(other) ==> bucket == other
  {
    assert |"tuning"| == 6 && |"motion"| == 6 && |"diagnostics"| == 11 && |"status_poll"| == 11 && |"testing"| == 7;
    assert "tuning"[0] == 't' && "motion"[0] == 'm' && "diagnostics"[0] == 'd' && "status_poll"[0] == 's';
  }

  /**
    Two calls share a bucket exactly when they are of one kind and that kind
    does not tell them apart: tuning is kept per client and joint as they read
    joined, a status poll is one for the whole robot, and every other kind is kept
    per joint whoever calls.
   */
  lemma {:induction false} SameKeyIff(op: Op, other: Op)
    ensures KeyOf(op) == KeyOf(other) <==>
            && op.bucket == other.bucket
            && match op.bucket
               case Tuning => op.client + ":" + op.joint == other.client + ":" + other.joint
               case StatusPoll => true
               case Motion => op.joint == other.joint
               case Diagnostics => op.joint == other.joint
               case Testing => op.joint == other.joint
  {
    KindNamesDiffer(op.bucket, other.bucket);
    KindNamesDiffer(other.bucket, op.bucket);
    if KeyOf(op) == KeyOf(other) {
      SplitAtLastColon(Scope(op.client, op.joint, op.bucket), KindName(op.bucket),
                       Scope(other.client, other.joint, other.bucket), KindName(other.bucket));
      assert op.joint == ("__global__:" + op.joint)[|"__global__:"|..];
      assert other.joint == ("__global__:" + other.joint)[|"__global__:"|..];
    }
  }

  /** Joint names hold no colon, so two tuning callers share a bucket only when client and joint are the same. */
  lemma {:induction false} TuningIsPerClientAndJoint(op: Op, other: Op)
    requires op.bucket == Tuning && other.bucket == Tuning && NoColon(op.joint) && NoColon(other.joint)
    ensures KeyOf(op) == KeyOf(other) <==> op.client == other.client && op.joint == other.joint
  {
    SameKeyIff(op, other);
    if KeyOf(op) == KeyOf(other) {
      SplitAtLastColon(op.client, op.joint, other.client, other.joint);
    }
  }

  // ----- Runs

  datatype Served = Served(buckets: Buckets, answers: seq<bool>)

  /** Serve the calls in lock order, with or without eviction. */
  function Serve(ops: seq<Op>, evicting: bool): (served: Served)
    ensures |served.answers| == |ops|
  {
    if ops == [] then Served(map[], [])
    else
      var before := Serve(ops[..|ops| - 1], evicting);
      var op := ops[|ops| - 1];
      Served(After(before.buckets, op, evicting), before.answers + [Answer(before.buckets, op, evicting)])
  }

  /** No call's clock reading is more than `skew` behind an earlier call's. */
  predicate SkewWithin(ops: seq<Op>, skew: real) {
    forall i, j | 0 <= i < j < |ops| :: ops[i].now - skew <= ops[j].now
  }

  /** The j-th call charged the bucket that the i-th refunds, and all readings in between are within the TTL. */
  ghost predicate Prompt(ops: seq<Op>, j: int, i: int)
    requires 0 <= i < |ops|
  {
    && 0 <= j < i && ops[j].Allow? && !Blank(ops[j].client) && KeyOf(ops[j]) == KeyOf(ops[i])
    && forall m, k | j <= m < k < i :: ops[k].now - ops[m].now < BUCKET_TTL
  }

  /** Each refund follows its own allow before the TTL can run out, as a failed publish does. */
  ghost predicate PromptRefunds(ops: seq<Op>) {
    forall i | 0 <= i < |ops| && ops[i].Refund? && !Blank(ops[i].client) :: exists j :: Prompt(ops, j, i)
  }

  ghost predicate RefundsFindBucket(ops: seq<Op>) {
    forall i | 0 <= i < |ops| && ops[i].Refund? && !Blank(ops[i].client) ::
      KeyOf(ops[i]) in Serve(ops[..i], true).buckets
  }

  /** Every earlier reading is at most `high`. */
  predicate Bounded(ops: seq<Op>, high: real) {
    forall i | 0 <= i < |ops| :: ops[i].now <= high
  }

  /** What the never-evicting limiter keeps of each bucket. */
  ghost predicate Sane(kept: Buckets, key: string, high: real, skew: real)
    requires key in kept
  {
    var b := kept[key];
    && (exists op: Op :: KeyOf(op) == key && b.config == ConfigOf(op.bucket))
    && 0.0 <= b.tokens <= b.config.burst
    && b.lastRefill <= high && b.lastTouch <= high && b.lastRefill <= b.lastTouch + skew
  }

  /** A bucket the evicting limiter dropped is one that any call from now on would find full. */
  ghost predicate WouldBeFull(b: TokenBucket, high: real, skew: real) {
    b.lastRefill <= high - BUCKET_TTL + skew || (skew == 0.0 && b.tokens == b.config.burst)
  }

  ghost predicate Simulates(live: Buckets, kept: Buckets, high: real, skew: real) {
    && (forall key | key in live :: key in kept && live[key] == kept[key])
    && (forall key | key in kept :: Sane(kept, key, high, skew))
    && (forall key | key in kept && key !in live :: WouldBeFull(kept[key], high, skew))
  }

  lemma {:induction false} KeyFixesConfig(kept: Buckets, op: Op, high: real, skew: real)
    requires KeyOf(op) in kept && Sane(kept, KeyOf(op), high, skew)
    ensures kept[KeyOf(op)].config == ConfigOf(op.bucket)
  {
    var other: Op :| KeyOf(other) == KeyOf(op) && kept[KeyOf(op)].config == ConfigOf(other.bucket);
    SameKeyIff(op, other);
  }

  /** Four seconds refill any kind from empty. */
  lemma {:induction false} GainFrom(bucket: CommandBucket, elapsed: real)
    requires elapsed >= 0.0
    ensures Gain(ConfigOf(bucket), elapsed) >= 0.0
    ensures elapsed >= 4.0 ==> Gain(ConfigOf(bucket), elapsed) >= ConfigOf(bucket).burst
  {
  }

  /** The TTL outlasts every kind's refill even after the clock steps back twice. */
  lemma {:induction false} IdleRefills(b: TokenBucket, bucket: CommandBucket, now: real)
    requires b.config == ConfigOf(bucket) && 0.0 <= b.tokens <= b.config.burst
    requires now - b.lastRefill >= 4.0
    ensures Refilled(b, now) == b.(tokens := b.config.burst, lastRefill := now)
  {
    GainFrom(bucket, now - b.lastRefill);
  }

  /** A dropped bucket, kept instead, is full at the next call: indistinguishable from a new one. */
  lemma {:induction false} DroppedIsFull(kept: Buckets, op: Op, high: real, skew: real)
    requires KeyOf(op) in kept && Sane(kept, KeyOf(op), high, skew) && WouldBeFull(kept[KeyOf(op)], high, skew)
    requires 0.0 <= skew <= 298.0 && high - skew <= op.now
    ensures Refilled(kept[KeyOf(op)], op.now).(lastTouch := op.now) == NewBucket(ConfigOf(op.bucket), op.now)
  {
    var b := kept[KeyOf(op)];
    KeyFixesConfig(kept, op, high, skew);
    if op.now - b.lastRefill >= 4.0 {
      IdleRefills(b, op.bucket, op.now);
    } else {
      assert b.tokens == b.config.burst && b.lastRefill <= op.now;
      FullStaysFull(b, op.bucket, op.now);
    }
  }

  lemma {:induction false} FullStaysFull(b: TokenBucket, bucket: CommandBucket, now: real)
    requires b.config == ConfigOf(bucket) && b.tokens == b.config.burst && b.lastRefill <= now
    ensures Refilled(b, now) == b.(lastRefill := now)
  {
    GainFrom(bucket, now - b.lastRefill);
  }

  lemma {:induction false} TouchKeepsSane(kept: Buckets, op: Op, high: real, skew: real)
    requires forall key | key in kept :: Sane(kept, key, high, skew)
    requires 0.0 <= skew && high - skew <= op.now
    ensures var high' := Max(high, op.now);
            var kept' := After(kept, op, false);
            forall key | key in kept' :: Sane(kept', key, high', skew)
  {
    var high', kept' := Max(high, op.now), After(kept, op, false);
    forall key | key in kept' ensures Sane(kept', key, high', skew) {
      if key in kept && kept'[key] == kept[key] {
        assert Sane(kept, key, high, skew);
      } else {
        assert key == KeyOf(op);
        var b := BucketOr(kept, key, ConfigOf(op.bucket), op.now);
        if key in kept {
          KeyFixesConfig(kept, op, high, skew);
        }
        if b.lastRefill <= op.now {
          GainFrom(op.bucket, op.now - b.lastRefill);
        }
      }
    }
  }

  /** Both limiters find the same bucket for the call, once it is brought up to date. */
  lemma {:induction false} SameBucketFound(live: Buckets, kept: Buckets, op: Op, high: real, skew: real)
    requires Simulates(live, kept, high, skew)
    requires 0.0 <= skew <= 298.0 && high - skew <= op.now
    ensures var key, config := KeyOf(op), ConfigOf(op.bucket);
            Refilled(BucketOr(Retained(live, op.now), key, config, op.now), op.now).(lastTouch := op.now)
            == Refilled(BucketOr(kept, key, config, op.now), op.now).(lastTouch := op.now)
  {
    var key := KeyOf(op);
    if key in kept && key !in Retained(live, op.now) {
      assert Sane(kept, key, high, skew);
      if key in live {
        KeyFixesConfig(kept, op, high, skew);
        IdleRefills(kept[key], op.bucket, op.now);
      } else {
        DroppedIsFull(kept, op, high, skew);
      }
    }
  }

  lemma {:induction false} AllowSimulates(live: Buckets, kept: Buckets, op: Op, high: real, skew: real)
    requires Simulates(live, kept, high, skew) && op.Allow? && !Blank(op.client)
    requires 0.0 <= skew <= 298.0 && high - skew <= op.now
    ensures Answer(live, op, true) == Answer(kept, op, false)
    ensures Simulates(After(live, op, true), After(kept, op, false), Max(high, op.now), skew)
  {
    var live', kept', high' := After(live, op, true), After(kept, op, false), Max(high, op.now);
    SameBucketFound(live, kept, op, high, skew);
    TouchKeepsSane(kept, op, high, skew);
    assert live'[KeyOf(op)] == kept'[KeyOf(op)];
    forall key | key in kept' && key !in live' ensures WouldBeFull(kept'[key], high', skew) {
      assert key in kept && kept'[key] == kept[key] && Sane(kept, key, high, skew);
    }
  }

  lemma {:induction false} RefundSimulates(live: Buckets, kept: Buckets, op: Op, high: real, skew: real)
    requires Simulates(live, kept, high, skew) && op.Refund?
    requires 0.0 <= skew <= 298.0 && high - skew <= op.now
    requires skew == 0.0 || KeyOf(op) in live || Blank(op.client)
    ensures Simulates(After(live, op, true), After(kept, op, false), Max(high, op.now), skew)
  {
    TouchKeepsSane(kept, op, high, skew);
    if KeyOf(op) in kept && KeyOf(op) !in live && !Blank(op.client) {
      DroppedIsFull(kept, op, high, skew);
    }
    var live', kept', high' := After(live, op, true), After(kept, op, false), Max(high, op.now);
    forall key | key in kept' && key !in live' ensures WouldBeFull(kept'[key], high', skew) {
      assert key in kept && Sane(kept, key, high, skew);
    }
  }

  lemma {:induction false} ServeSimulates(ops: seq<Op>, skew: real, high: real)
    requires 0.0 <= skew <= 298.0 && SkewWithin(ops, skew) && (skew == 0.0 || RefundsFindBucket(ops))
    requires Bounded(ops, high) && (ops != [] ==> exists i :: 0 <= i < |ops| && ops[i].now == high)
    ensures Serve(ops, true).answers == Serve(ops, false).answers
    ensures Simulates(Serve(ops, true).buckets, Serve(ops, false).buckets, high, skew)
  {
    if ops != [] {
      var front, op := ops[..|ops| - 1], ops[|ops| - 1];
      assert forall i | 0 <= i < |front| :: front[i] == ops[i];
      assert forall i | 0 <= i < |front| :: front[..i] == ops[..i];
      var before := Latest(front, op.now);
      ServeSimulates(front, skew, before);
      var live, kept := Serve(front, true).buckets, Serve(front, false).buckets;
      if op.Refund? {
        RefundSimulates(live, kept, op, before, skew);
      } else if !Blank(op.client) {
        AllowSimulates(live, kept, op, before, skew);
      }
      SimulatesLater(Serve(ops, true).buckets, Serve(ops, false).buckets, Max(before, op.now), high, skew);
    }
  }

  lemma {:induction false} SimulatesLater(live: Buckets, kept: Buckets, high: real, later: real, skew: real)
    requires Simulates(live, kept, high, skew) && high <= later
    ensures Simulates(live, kept, later, skew)
  {
    assert forall key | key in kept :: Sane(kept, key, high, skew);
  }

  /** The latest reading so far; `otherwise` when there is none. */
  function Latest(ops: seq<Op>, otherwise: real): (high: real)
    ensures Bounded(ops, high)
    ensures ops == [] ==> high == otherwise
    ensures ops != [] ==> exists i :: 0 <= i < |ops| && ops[i].now == high
  {
    if ops == [] then otherwise
    else
      var front, last := ops[..|ops| - 1], ops[|ops| - 1];
      var high := if front == [] then last.now else Max(Latest(front, otherwise), last.now);
      assert forall i | 0 <= i < |front| :: front[i] == ops[i];
      high
  }

  lemma {:induction false} ChargedBucketStays(ops: seq<Op>, j: nat, i: nat, n: nat) returns (m: nat)
    requires i < |ops| && Prompt(ops, j, i) && j < n <= i
    ensures j <= m < n
    ensures var live := Serve(ops[..n], true).buckets;
            KeyOf(ops[i]) in live && live[KeyOf(ops[i])].lastTouch == ops[m].now
    decreases n
  {
    ServeNext(ops, n - 1);
    m := n - 1;
    if j == n - 1 {
      ChargeTouches(Serve(ops[..j], true).buckets, ops[j]);
    } else {
      var before := ChargedBucketStays(ops, j, i, n - 1);
      BucketStays(Serve(ops[..n - 1], true).buckets, ops[n - 1], KeyOf(ops[i]));
      if KeyOf(ops[n - 1]) != KeyOf(ops[i]) || Blank(ops[n - 1].client) {
        m := before;
      }
    }
  }

  lemma {:induction false} ServeNext(ops: seq<Op>, n: nat)
    requires n < |ops|
    ensures Serve(ops[..n + 1], true).buckets == After(Serve(ops[..n], true).buckets, ops[n], true)
  {
    assert ops[..n + 1][..n] == ops[..n];
  }

  lemma {:induction false} ChargeTouches(live: Buckets, op: Op)
    requires op.Allow? && !Blank(op.client)
    ensures KeyOf(op) in After(live, op, true) && After(live, op, true)[KeyOf(op)].lastTouch == op.now
  {
  }

  lemma {:induction false} BucketStays(live: Buckets, op: Op, key: string)
    requires key in live && op.now - live[key].lastTouch < BUCKET_TTL
    ensures var live' := After(live, op, true);
            key in live' && live'[key].lastTouch == if KeyOf(op) == key && !Blank(op.client) then op.now else live[key].lastTouch
  {
  }

  lemma {:induction false} PromptRefundsFindBucket(ops: seq<Op>)
    requires PromptRefunds(ops)
    ensures RefundsFindBucket(ops)
  {
    forall i | 0 <= i < |ops| && ops[i].Refund? && !Blank(ops[i].client)
      ensures KeyOf(ops[i]) in Serve(ops[..i], true).buckets
    {
      var j :| Prompt(ops, j, i);
      var _ := ChargedBucketStays(ops, j, i, i);
    }
  }

  /**
    Eviction is unobservable: the evicting limiter answers every call as one
    that never drops a bucket would, for any clock that never steps back, and for
    one that steps back by up to 298 s (half of what the TTL exceeds the slowest
    refill by) when each refund follows its own allow within the TTL.
   */
  lemma {:induction false} EvictionIsUnobservable(ops: seq<Op>, skew: real)
    requires 0.0 <= skew <= 298.0 && SkewWithin(ops, skew) && (skew == 0.0 || PromptRefunds(ops))
    ensures Serve(ops, true).answers == Serve(ops, false).answers
  {
    if skew != 0.0 {
      PromptRefundsFindBucket(ops);
    }
    ServeSimulates(ops, skew, Latest(ops, 0.0));
  }

  // ----- The rate

  /** The published burst of each kind. */
  ghost function Burst(bucket: CommandBucket): real {
    match bucket
    case Tuning => 10.0
    case Motion => 2.0
    case Diagnostics => 20.0
    case StatusPoll => 2.0
    case Testing => 40.0
  }

  /** Tokens the published rate of each kind brings in so many seconds. */
  ghost function Refill(bucket: CommandBucket, seconds: real): real {
    match bucket
    case Tuning => 10.0 * seconds
    case Motion => 2.0 * seconds
    case Diagnostics => 20.0 * seconds
    case StatusPoll => seconds / 2.0
    case Testing => 20.0 * seconds
  }

  lemma {:induction false} LimitsAsPublished(bucket: CommandBucket, seconds: real)
    ensures ConfigOf(bucket).burst == Burst(bucket) && Gain(ConfigOf(bucket), seconds) == Refill(bucket, seconds)
  {
  }

  /** Calls allowed minus calls refunded on `key` among ops[from..]. */
  function Net(ops: seq<Op>, answers: seq<bool>, from: nat, key: string): int
    requires from <= |ops| == |answers|
  {
    if from == |ops| then 0
    else
      var n := |ops| - 1;
      var mine := KeyOf(ops[n]) == key && !Blank(ops[n].client);
      Net(ops[..n], answers[..n], from, key)
      + if mine && answers[n] then 1 else if mine && ops[n].Refund? then -1 else 0
  }

  /**
    Tokens spent since the interval began plus those left never exceed the burst
    plus what has been refilled since `base`: the interval's start, or the
    bucket's last refill when an earlier call had already read a later time.
   */
  ghost predicate Rated(b: TokenBucket, config: BucketConfig, net: int, low: real, base: real, high: real) {
    && b.config == config && 0.0 <= b.tokens <= config.burst
    && (b.lastRefill < base ==> net <= 0 && base == low)
    && b.lastRefill <= Max(base, high)
    && net as real + b.tokens <= config.burst + Gain(config, Max(b.lastRefill, base) - base)
  }

  ghost predicate RatedKey(buckets: Buckets, key: string, config: BucketConfig, net: int, low: real, base: real, high: real) {
    if key in buckets then Rated(buckets[key], config, net, low, base, high) else net <= 0 && base == low
  }

  lemma {:induction false} RefillIsRated(b: TokenBucket, bucket: CommandBucket, net: int, low: real, base: real, high: real, now: real)
    requires Rated(b, ConfigOf(bucket), net, low, base, high) && low <= now <= high && low <= base
    ensures Rated(Refilled(b, now), ConfigOf(bucket), net, low, base, high) && base <= Refilled(b, now).lastRefill
  {
    var config := ConfigOf(bucket);
    if b.lastRefill < now {
      GainFrom(bucket, now - b.lastRefill);
      if b.lastRefill < base {
        GainFrom(bucket, now - base);
      } else {
        assert Gain(config, now - base) == Gain(config, now - b.lastRefill) + Gain(config, b.lastRefill - base);
      }
    }
  }

  lemma {:induction false} ConsumeIsRated(b: TokenBucket, bucket: CommandBucket, net: int, low: real, base: real, high: real, now: real)
    requires Rated(b, ConfigOf(bucket), net, low, base, high) && low <= now <= high && low <= base
    ensures Rated(Consumed(b, now), ConfigOf(bucket), if Refilled(b, now).tokens >= 1.0 then net + 1 else net,
                  low, base, high)
  {
    RefillIsRated(b, bucket, net, low, base, high, now);
  }

  lemma {:induction false} RefundIsRated(b: TokenBucket, bucket: CommandBucket, net: int, low: real, base: real, high: real, now: real)
    requires Rated(b, ConfigOf(bucket), net, low, base, high) && low <= now <= high && low <= base
    ensures Rated(Refunded(b, now), ConfigOf(bucket), net - 1, low, base, high)
  {
    RefillIsRated(b, bucket, net, low, base, high, now);
  }

  lemma {:induction false} NewIsRated(bucket: CommandBucket, net: int, low: real, high: real, now: real)
    requires net <= 0 && low <= now <= high
    ensures Rated(NewBucket(ConfigOf(bucket), now), ConfigOf(bucket), net, low, low, high)
  {
    GainFrom(bucket, now - low);
  }

  lemma {:induction false} StepIsRated(buckets: Buckets, last: Op, op: Op, net: int, low: real, base: real, high: real)
    requires RatedKey(buckets, KeyOf(op), ConfigOf(op.bucket), net, low, base, high)
    requires low <= last.now <= high && low <= base && KeyOf(last) == KeyOf(op) && !Blank(last.client)
    ensures RatedKey(After(buckets, last, false), KeyOf(op), ConfigOf(op.bucket),
                     if last.Refund? then net - 1 else if Answer(buckets, last, false) then net + 1 else net,
                     low, base, high)
  {
    SameKeyIff(last, op);
    var key := KeyOf(op);
    if last.Refund? {
      if key in buckets {
        RefundIsRated(buckets[key], op.bucket, net, low, base, high, last.now);
      }
    } else {
      if key !in buckets {
        NewIsRated(op.bucket, net, low, high, last.now);
      }
      ConsumeIsRated(BucketOr(buckets, key, ConfigOf(op.bucket), last.now), op.bucket, net, low, base, high, last.now);
    }
  }

  lemma {:induction false} CallStaysInRange(buckets: Buckets, last: Op, op: Op)
    requires KeyOf(last) == KeyOf(op) && KeyOf(op) in After(buckets, last, false)
    requires KeyOf(op) in buckets ==> var b := buckets[KeyOf(op)]; b.config == ConfigOf(op.bucket) && 0.0 <= b.tokens <= b.config.burst
    ensures var b := After(buckets, last, false)[KeyOf(op)];
            b.config == ConfigOf(op.bucket) && 0.0 <= b.tokens <= b.config.burst
  {
    SameKeyIff(last, op);
    var b := BucketOr(buckets, KeyOf(op), ConfigOf(op.bucket), last.now);
    if b.lastRefill <= last.now {
      GainFrom(op.bucket, last.now - b.lastRefill);
    }
  }

  /** A bucket always holds between nothing and its burst. */
  lemma {:induction false} TokensInRange(ops: seq<Op>, op: Op)
    requires KeyOf(op) in Serve(ops, false).buckets
    ensures var b := Serve(ops, false).buckets[KeyOf(op)];
            b.config == ConfigOf(op.bucket) && 0.0 <= b.tokens <= b.config.burst
  {
    var front, last := ops[..|ops| - 1], ops[|ops| - 1];
    var before := Serve(front, false).buckets;
    if KeyOf(op) in before {
      TokensInRange(front, op);
    }
    if KeyOf(last) == KeyOf(op) {
      CallStaysInRange(before, last, op);
    }
  }

  lemma {:induction false} ServeIsRated(ops: seq<Op>, from: nat, op: Op, low: real, high: real)
    returns (base: real)
    requires from <= |ops|
    requires forall i | from <= i < |ops| :: low <= ops[i].now <= high
    ensures low <= base
    ensures RatedKey(Serve(ops, false).buckets, KeyOf(op), ConfigOf(op.bucket),
                     Net(ops, Serve(ops, false).answers, from, KeyOf(op)), low, base, high)
    decreases |ops|
  {
    if from == |ops| {
      base := StartIsRated(ops, op, low, high);
    } else {
      var front := ops[..|ops| - 1];
      assert forall i | 0 <= i < |front| :: front[i] == ops[i];
      base := ServeIsRated(front, from, op, low, high);
      NextIsRated(ops, from, op, low, base, high);
    }
  }

  lemma {:induction false} StartIsRated(ops: seq<Op>, op: Op, low: real, high: real) returns (base: real)
    ensures low <= base
    ensures RatedKey(Serve(ops, false).buckets, KeyOf(op), ConfigOf(op.bucket), 0, low, base, high)
  {
    var buckets := Serve(ops, false).buckets;
    base := low;
    if KeyOf(op) in buckets {
      base := Max(low, buckets[KeyOf(op)].lastRefill);
      TokensInRange(ops, op);
    }
  }

  lemma {:induction false} NextIsRated(ops: seq<Op>, from: nat, op: Op, low: real, base: real, high: real)
    requires from < |ops| && low <= ops[|ops| - 1].now <= high && low <= base
    requires var front := Serve(ops[..|ops| - 1], false);
             RatedKey(front.buckets, KeyOf(op), ConfigOf(op.bucket), Net(ops[..|ops| - 1], front.answers, from, KeyOf(op)), low, base, high)
    ensures RatedKey(Serve(ops, false).buckets, KeyOf(op), ConfigOf(op.bucket),
                     Net(ops, Serve(ops, false).answers, from, KeyOf(op)), low, base, high)
  {
    var key, front, last := KeyOf(op), ops[..|ops| - 1], ops[|ops| - 1];
    var before := Serve(front, false);
    assert Serve(ops, false).answers[..|front|] == before.answers;
    if KeyOf(last) == key && !Blank(last.client) {
      StepIsRated(before.buckets, last, op, Net(front, before.answers, from, key), low, base, high);
    } else {
      assert key in before.buckets <==> key in Serve(ops, false).buckets;
    }
  }

  /**
    A true rate bound: among any consecutive calls whose readings lie in
    [low, high], those allowed on one key, less those refunded, never exceed its
    burst plus its refill rate times the length of the interval.
   */
  lemma {:induction false} NetAllowedIsBounded(ops: seq<Op>, from: nat, op: Op, low: real, high: real, skew: real)
    requires 0.0 <= skew <= 298.0 && SkewWithin(ops, skew) && (skew == 0.0 || PromptRefunds(ops))
    requires from <= |ops| && low <= high
    requires forall i | from <= i < |ops| :: low <= ops[i].now <= high
    ensures Net(ops, Serve(ops, true).answers, from, KeyOf(op)) as real <= Burst(op.bucket) + Refill(op.bucket, high - low)
  {
    EvictionIsUnobservable(ops, skew);
    var base := ServeIsRated(ops, from, op, low, high);
    var net := Net(ops, Serve(ops, true).answers, from, KeyOf(op));
    RatedKeyMeansBounded(Serve(ops, false).buckets, op, net, low, base, high);
    LimitsAsPublished(op.bucket, high - low);
  }

  lemma {:induction false} RatedKeyMeansBounded(buckets: Buckets, op: Op, net: int, low: real, base: real, high: real)
    requires RatedKey(buckets, KeyOf(op), ConfigOf(op.bucket), net, low, base, high) && low <= base && low <= high
    ensures net as real <= ConfigOf(op.bucket).burst + Gain(ConfigOf(op.bucket), high - low)
  {
    if KeyOf(op) in buckets {
      RatedMeansBounded(buckets[KeyOf(op)], op.bucket, net, low, base, high);
    } else {
      GainFrom(op.bucket, high - low);
    }
  }

  lemma {:induction false} RatedMeansBounded(b: TokenBucket, bucket: CommandBucket, net: int, low: real, base: real, high: real)
    requires Rated(b, ConfigOf(bucket), net, low, base, high) && low <= base && low <= high
    ensures net as real <= ConfigOf(bucket).burst + Gain(ConfigOf(bucket), high - low)
  {
    var config := ConfigOf(bucket);
    var refilled := Max(b.lastRefill, base) - base;
    GainFrom(bucket, high - low - refilled);
    assert Gain(config, high - low) == Gain(config, high - low - refilled) + Gain(config, refilled);
  }

  // ----- When a call is allowed

  predicate Touches(op: Op, key: string) {
    KeyOf(op) == key && !Blank(op.client)
  }

  /** Latest reading of the calls on `key` since its first allow: the bucket is as full as it was going to be by then. */
  function Clock(ops: seq<Op>, key: string): Option<real> {
    if ops == [] then None
    else
      var before, last := Clock(ops[..|ops| - 1], key), ops[|ops| - 1];
      if !Touches(last, key) then before
      else if before.Some? then Some(Max(before.value, last.now))
      else if last.Allow? then Some(last.now)
      else None
  }

  /** Calls allowed minus calls refunded on `key` since call `i`, whose own token counts when it took one. */
  ghost function SpentSince(ops: seq<Op>, answers: seq<bool>, i: nat, key: string): int
    requires i < |ops| == |answers|
  {
    Net(ops, answers, i + 1, key) + if answers[i] then 1 else 0
  }

  /** What a bucket that was full at call `i` would hold at time `now`. */
  ghost function HeldIfFull(ops: seq<Op>, answers: seq<bool>, key: string, bucket: CommandBucket, i: nat, now: real): real
    requires i < |ops| == |answers| && Clock(ops[..i + 1], key).Some?
  {
    Burst(bucket) + Refill(bucket, now - Clock(ops[..i + 1], key).value) - SpentSince(ops, answers, i, key) as real
  }

  /** Call `i` is one the bucket of `key` has seen. */
  ghost predicate IsMoment(ops: seq<Op>, key: string, i: nat) {
    i < |ops| && Touches(ops[i], key) && Clock(ops[..i + 1], key).Some?
  }

  ghost predicate AtMostHeld(ops: seq<Op>, answers: seq<bool>, key: string, bucket: CommandBucket, now: real, tokens: real, i: nat)
    requires |ops| == |answers|
  {
    IsMoment(ops, key, i) ==> tokens <= HeldIfFull(ops, answers, key, bucket, i, now)
  }

  ghost predicate IsHeld(ops: seq<Op>, answers: seq<bool>, key: string, bucket: CommandBucket, now: real, tokens: real, i: nat)
    requires |ops| == |answers|
  {
    IsMoment(ops, key, i) && tokens == HeldIfFull(ops, answers, key, bucket, i, now)
  }

  /** The bucket holds the least of what it would hold had it been full at one of the calls it has seen. */
  ghost predicate HoldsLeast(ops: seq<Op>, answers: seq<bool>, key: string, bucket: CommandBucket, now: real, tokens: real)
    requires |ops| == |answers|
  {
    && (forall i: nat :: AtMostHeld(ops, answers, key, bucket, now, tokens, i))
    && exists i: nat :: IsHeld(ops, answers, key, bucket, now, tokens, i)
  }

  /** The bucket of `key` after the calls: there since its first allow, refilled up to the latest reading, holding the least. */
  ghost predicate Kept(ops: seq<Op>, answers: seq<bool>, buckets: Buckets, key: string, bucket: CommandBucket)
    requires |ops| == |answers|
  {
    && (key in buckets <==> Clock(ops, key).Some?)
    && (key in buckets ==>
          && buckets[key].config == ConfigOf(bucket) && buckets[key].lastRefill == Clock(ops, key).value
          && HoldsLeast(ops, answers, key, bucket, Clock(ops, key).value, buckets[key].tokens))
  }

  lemma {:induction false} MomentsStay(ops: seq<Op>, op: Op, key: string, i: nat)
    requires i < |ops|
    ensures IsMoment(ops + [op], key, i) <==> IsMoment(ops, key, i)
    ensures (ops + [op])[..i + 1] == ops[..i + 1]
  {
    var more := ops + [op];
    assert more[..i + 1] == ops[..i + 1] && more[i] == ops[i];
  }

  /** What the call takes from its own bucket. */
  ghost function Taken(op: Op, ok: bool, key: string): int {
    if Touches(op, key) && ok then 1 else if Touches(op, key) && op.Refund? then -1 else 0
  }

  lemma {:induction false} SpentNext(ops: seq<Op>, answers: seq<bool>, op: Op, ok: bool, key: string, i: nat)
    requires i < |ops| == |answers|
    ensures SpentSince(ops + [op], answers + [ok], i, key) == SpentSince(ops, answers, i, key) + Taken(op, ok, key)
  {
    var more, said := ops + [op], answers + [ok];
    assert more[..|ops|] == ops && said[..|ops|] == answers;
  }

  /** One more call changes what a bucket full at call `i` would hold by what that call refills, takes and gives back. */
  lemma {:induction false} HeldNext(ops: seq<Op>, answers: seq<bool>, op: Op, ok: bool, key: string, bucket: CommandBucket, i: nat, now: real, later: real)
    requires |ops| == |answers| && IsMoment(ops, key, i)
    ensures IsMoment(ops + [op], key, i)
    ensures HeldIfFull(ops + [op], answers + [ok], key, bucket, i, later)
            == HeldIfFull(ops, answers, key, bucket, i, now) + Refill(bucket, later - now) - Taken(op, ok, key) as real
  {
    MomentsStay(ops, op, key, i);
    SpentNext(ops, answers, op, ok, key, i);
  }

  lemma {:induction false} HeldNow(ops: seq<Op>, answers: seq<bool>, op: Op, ok: bool, key: string, bucket: CommandBucket)
    requires |ops| == |answers| && Touches(op, key) && Clock(ops + [op], key).Some?
    ensures IsMoment(ops + [op], key, |ops|)
    ensures HeldIfFull(ops + [op], answers + [ok], key, bucket, |ops|, Clock(ops + [op], key).value)
            == Burst(bucket) - if ok then 1.0 else 0.0
  {
    var more := ops + [op];
    assert more[..|ops| + 1] == more;
  }

  lemma {:induction false} AtMostMoves(ops: seq<Op>, answers: seq<bool>, op: Op, ok: bool, key: string, bucket: CommandBucket,
                    now: real, tokens: real, later: real, tokens': real, i: nat)
    requires |ops| == |answers| && AtMostHeld(ops, answers, key, bucket, now, tokens, i) && i != |ops|
    requires tokens' <= tokens + Refill(bucket, later - now) - Taken(op, ok, key) as real
    ensures AtMostHeld(ops + [op], answers + [ok], key, bucket, later, tokens', i)
  {
    if i < |ops| && IsMoment(ops + [op], key, i) {
      MomentsStay(ops, op, key, i);
      HeldNext(ops, answers, op, ok, key, bucket, i, now, later);
    }
  }

  lemma {:induction false} HeldMoves(ops: seq<Op>, answers: seq<bool>, op: Op, ok: bool, key: string, bucket: CommandBucket,
                  now: real, tokens: real, later: real, tokens': real, i: nat)
    requires |ops| == |answers| && IsHeld(ops, answers, key, bucket, now, tokens, i)
    requires tokens' == tokens + Refill(bucket, later - now) - Taken(op, ok, key) as real
    ensures IsHeld(ops + [op], answers + [ok], key, bucket, later, tokens', i)
  {
    HeldNext(ops, answers, op, ok, key, bucket, i, now, later);
  }

  /** Moving the clock, taking or giving a token, and capping at the burst: the least moves along. */
  lemma {:induction false} LeastMoves(ops: seq<Op>, answers: seq<bool>, op: Op, ok: bool, key: string, bucket: CommandBucket,
                   now: real, tokens: real, later: real, tokens': real)
    requires |ops| == |answers| && HoldsLeast(ops, answers, key, bucket, now, tokens)
    requires Touches(op, key) && Clock(ops + [op], key) == Some(later)
    requires tokens' == Min(tokens + Refill(bucket, later - now) - Taken(op, ok, key) as real, Burst(bucket) - if ok then 1.0 else 0.0)
    ensures HoldsLeast(ops + [op], answers + [ok], key, bucket, later, tokens')
  {
    var more, said, n := ops + [op], answers + [ok], |ops|;
    HeldNow(ops, answers, op, ok, key, bucket);
    forall i: nat ensures AtMostHeld(more, said, key, bucket, later, tokens', i) {
      if i != n {
        AtMostMoves(ops, answers, op, ok, key, bucket, now, tokens, later, tokens', i);
      }
    }
    if tokens' == tokens + Refill(bucket, later - now) - Taken(op, ok, key) as real {
      var i: nat :| IsHeld(ops, answers, key, bucket, now, tokens, i);
      HeldMoves(ops, answers, op, ok, key, bucket, now, tokens, later, tokens', i);
    } else {
      assert IsHeld(more, said, key, bucket, later, tokens', n);
    }
  }

  lemma {:induction false} LeastStays(ops: seq<Op>, answers: seq<bool>, op: Op, ok: bool, key: string, bucket: CommandBucket, now: real, tokens: real)
    requires |ops| == |answers| && HoldsLeast(ops, answers, key, bucket, now, tokens) && !Touches(op, key)
    ensures HoldsLeast(ops + [op], answers + [ok], key, bucket, now, tokens)
  {
    forall i: nat ensures AtMostHeld(ops + [op], answers + [ok], key, bucket, now, tokens, i) {
      if i != |ops| {
        AtMostMoves(ops, answers, op, ok, key, bucket, now, tokens, now, tokens, i);
      }
    }
    var i: nat :| IsHeld(ops, answers, key, bucket, now, tokens, i);
    HeldMoves(ops, answers, op, ok, key, bucket, now, tokens, now, tokens, i);
  }

  /** The first allow finds a full bucket. */
  lemma {:induction false} LeastBegins(ops: seq<Op>, answers: seq<bool>, op: Op, ok: bool, key: string, bucket: CommandBucket)
    requires |ops| == |answers| && Clock(ops, key).None? && Touches(op, key) && op.Allow?
    ensures HoldsLeast(ops + [op], answers + [ok], key, bucket, op.now, Burst(bucket) - if ok then 1.0 else 0.0)
  {
    var more, said, n := ops + [op], answers + [ok], |ops|;
    var tokens := Burst(bucket) - if ok then 1.0 else 0.0;
    assert more[..n] == ops;
    HeldNow(ops, answers, op, ok, key, bucket);
    assert IsHeld(more, said, key, bucket, op.now, tokens, n);
    forall i: nat ensures AtMostHeld(more, said, key, bucket, op.now, tokens, i) {
      if i < n {
        NotSeenYet(ops, op, key, i);
      }
    }
  }

  lemma {:induction false} NotSeenYet(ops: seq<Op>, op: Op, key: string, i: nat)
    requires Clock(ops, key).None? && i < |ops|
    ensures !IsMoment(ops + [op], key, i)
  {
    MomentsStay(ops, op, key, i);
    if IsMoment(ops, key, i) {
      ClockGoesOn(ops, key, i + 1);
    }
  }

  lemma {:induction false} ClockGoesOn(ops: seq<Op>, key: string, n: nat)
    requires n <= |ops| && Clock(ops[..n], key).Some?
    ensures Clock(ops, key).Some?
  {
    if n < |ops| {
      assert ops[..|ops| - 1][..n] == ops[..n];
      ClockGoesOn(ops[..|ops| - 1], key, n);
    } else {
      assert ops[..n] == ops;
    }
  }

  // ----- The bucket itself

  lemma {:induction false} RefillLevel(b: TokenBucket, bucket: CommandBucket, now: real)
    requires b.config == ConfigOf(bucket) && b.tokens <= Burst(bucket)
    ensures Refilled(b, now).lastRefill == Max(b.lastRefill, now)
    ensures Refilled(b, now).tokens == Min(b.tokens + Refill(bucket, Max(b.lastRefill, now) - b.lastRefill), Burst(bucket))
  {
    LimitsAsPublished(bucket, now - b.lastRefill);
  }

  /** What one call does to the bucket of `op`, in a limiter that evicts nothing. */
  lemma {:induction false} CallLevel(buckets: Buckets, last: Op, op: Op)
    requires KeyOf(op) in buckets && Touches(last, KeyOf(op))
    requires buckets[KeyOf(op)].config == ConfigOf(op.bucket) && buckets[KeyOf(op)].tokens <= Burst(op.bucket)
    ensures KeyOf(op) in After(buckets, last, false)
    ensures var key, b, ok := KeyOf(op), buckets[KeyOf(op)], Answer(buckets, last, false);
            var b', later := After(buckets, last, false)[key], Max(b.lastRefill, last.now);
            && b'.config == b.config && b'.lastRefill == later
            && b'.tokens == Min(b.tokens + Refill(op.bucket, later - b.lastRefill) - Taken(last, ok, key) as real,
                                Burst(op.bucket) - if ok then 1.0 else 0.0)
  {
    RefillLevel(buckets[KeyOf(op)], op.bucket, last.now);
    LimitsAsPublished(op.bucket, 0.0);
  }

  lemma {:induction false} CallKeeps(ops: seq<Op>, answers: seq<bool>, buckets: Buckets, last: Op, op: Op)
    requires |ops| == |answers| && Kept(ops, answers, buckets, KeyOf(op), op.bucket)
    requires KeyOf(op) in buckets ==> buckets[KeyOf(op)].tokens <= Burst(op.bucket)
    requires Touches(last, KeyOf(op))
    ensures Kept(ops + [last], answers + [Answer(buckets, last, false)], After(buckets, last, false), KeyOf(op), op.bucket)
  {
    var key, bucket, ok := KeyOf(op), op.bucket, Answer(buckets, last, false);
    var more := ops + [last];
    assert more[..|ops|] == ops;
    if key in buckets {
      var b := buckets[key];
      CallLevel(buckets, last, op);
      LeastMoves(ops, answers, last, ok, key, bucket, b.lastRefill, b.tokens, Max(b.lastRefill, last.now),
                 After(buckets, last, false)[key].tokens);
    } else if last.Allow? {
      SameKeyIff(last, op);
      LimitsAsPublished(bucket, 0.0);
      LeastBegins(ops, answers, last, ok, key, bucket);
    }
  }

  lemma {:induction false} OtherCallLeaves(buckets: Buckets, last: Op, key: string)
    requires !Touches(last, key)
    ensures key in After(buckets, last, false) <==> key in buckets
    ensures key in buckets ==> After(buckets, last, false)[key] == buckets[key]
  {
  }

  lemma {:induction false} ClockStays(ops: seq<Op>, last: Op, key: string)
    requires !Touches(last, key)
    ensures Clock(ops + [last], key) == Clock(ops, key)
  {
    assert (ops + [last])[..|ops|] == ops;
  }

  lemma {:induction false} OtherCallKeeps(ops: seq<Op>, answers: seq<bool>, buckets: Buckets, last: Op, ok: bool, key: string, bucket: CommandBucket)
    requires |ops| == |answers| && Kept(ops, answers, buckets, key, bucket) && !Touches(last, key)
    ensures Kept(ops + [last], answers + [ok], After(buckets, last, false), key, bucket)
  {
    OtherCallLeaves(buckets, last, key);
    ClockStays(ops, last, key);
    if key in buckets {
      LeastStays(ops, answers, last, ok, key, bucket, buckets[key].lastRefill, buckets[key].tokens);
    }
  }

  lemma {:induction false} ServeKeeps(ops: seq<Op>, op: Op)
    ensures Kept(ops, Serve(ops, false).answers, Serve(ops, false).buckets, KeyOf(op), op.bucket)
  {
    if ops != [] {
      var front, last := ops[..|ops| - 1], ops[|ops| - 1];
      var before := Serve(front, false);
      assert ops == front + [last];
      ServeKeeps(front, op);
      if Touches(last, KeyOf(op)) {
        if KeyOf(op) in before.buckets {
          TokensInRange(front, op);
          LimitsAsPublished(op.bucket, 0.0);
        }
        CallKeeps(front, before.answers, before.buckets, last, op);
      } else {
        OtherCallKeeps(front, before.answers, before.buckets, last, Answer(before.buckets, last, false), KeyOf(op), op.bucket);
      }
    }
  }

  /** If call `i` is one on the key, the calls allowed since then less those refunded leave room for one more at `now`. */
  ghost predicate RoomSince(ops: seq<Op>, answers: seq<bool>, key: string, bucket: CommandBucket, now: real, i: nat)
    requires |ops| == |answers|
  {
    IsMoment(ops, key, i) ==>
      SpentSince(ops, answers, i, key) as real + 1.0 <= Burst(bucket) + Refill(bucket, now - Clock(ops[..i + 1], key).value)
  }

  ghost predicate HasRoom(ops: seq<Op>, answers: seq<bool>, key: string, bucket: CommandBucket, now: real)
    requires |ops| == |answers|
  {
    forall i: nat :: RoomSince(ops, answers, key, bucket, now, i)
  }

  lemma {:induction false} RoomIff(ops: seq<Op>, answers: seq<bool>, key: string, bucket: CommandBucket, now: real, later: real, i: nat)
    requires |ops| == |answers| && IsMoment(ops, key, i)
    ensures RoomSince(ops, answers, key, bucket, later, i) <==>
            HeldIfFull(ops, answers, key, bucket, i, now) + Refill(bucket, later - now) >= 1.0
  {
  }

  lemma {:induction false} EnoughIffRoom(ops: seq<Op>, answers: seq<bool>, key: string, bucket: CommandBucket,
                      now: real, tokens: real, later: real)
    requires |ops| == |answers| && HoldsLeast(ops, answers, key, bucket, now, tokens)
    ensures HasRoom(ops, answers, key, bucket, later) <==> tokens + Refill(bucket, later - now) >= 1.0
  {
    var least: nat :| IsHeld(ops, answers, key, bucket, now, tokens, least);
    RoomIff(ops, answers, key, bucket, now, later, least);
    assert HasRoom(ops, answers, key, bucket, later) ==> RoomSince(ops, answers, key, bucket, later, least);
    if tokens + Refill(bucket, later - now) >= 1.0 {
      forall i: nat ensures RoomSince(ops, answers, key, bucket, later, i) {
        if IsMoment(ops, key, i) {
          assert AtMostHeld(ops, answers, key, bucket, now, tokens, i);
          RoomIff(ops, answers, key, bucket, now, later, i);
        }
      }
    }
  }

  lemma {:induction false} NoMomentYet(ops: seq<Op>, answers: seq<bool>, key: string, bucket: CommandBucket, now: real)
    requires |ops| == |answers| && Clock(ops, key).None?
    ensures HasRoom(ops, answers, key, bucket, now)
  {
    forall i: nat ensures RoomSince(ops, answers, key, bucket, now, i) {
      if IsMoment(ops, key, i) {
        ClockGoesOn(ops, key, i + 1);
        assert false;
      }
    }
  }

  lemma {:induction false} UnevictedAllowsIff(ops: seq<Op>, op: Op)
    requires op.Allow? && !Blank(op.client)
    ensures Clock(ops + [op], KeyOf(op)).Some?
    ensures Answer(Serve(ops, false).buckets, op, false) <==>
            HasRoom(ops, Serve(ops, false).answers, KeyOf(op), op.bucket, Clock(ops + [op], KeyOf(op)).value)
  {
    var before, key := Serve(ops, false), KeyOf(op);
    assert (ops + [op])[..|ops|] == ops;
    ServeKeeps(ops, op);
    LimitsAsPublished(op.bucket, 0.0);
    if key in before.buckets {
      var b := before.buckets[key];
      TokensInRange(ops, op);
      RefillLevel(b, op.bucket, op.now);
      EnoughIffRoom(ops, before.answers, key, op.bucket, b.lastRefill, b.tokens, Max(b.lastRefill, op.now));
    } else {
      NoMomentYet(ops, before.answers, key, op.bucket, op.now);
    }
  }

  /**
    Exactly when a call is allowed: if and only if its client is not blank and,
    since each earlier call on its key, the calls allowed less those refunded plus
    this one are at most the burst plus what the rate has brought in since. Nothing
    else refuses a call.
   */
  lemma {:induction false} AllowedIff(ops: seq<Op>, op: Op, skew: real)
    requires 0.0 <= skew <= 298.0 && SkewWithin(ops + [op], skew) && (skew == 0.0 || PromptRefunds(ops + [op]))
    requires op.Allow? && !Blank(op.client)
    ensures Clock(ops + [op], KeyOf(op)).Some?
    ensures Serve(ops + [op], true).answers[|ops|] <==>
            HasRoom(ops, Serve(ops, true).answers, KeyOf(op), op.bucket, Clock(ops + [op], KeyOf(op)).value)
  {
    var all := ops + [op];
    assert all[..|ops|] == ops;
    EvictionIsUnobservable(all, skew);
    assert Serve(all, true).answers[..|ops|] == Serve(ops, true).answers;
    assert Serve(all, false).answers[..|ops|] == Serve(ops, false).answers;
    UnevictedAllowsIff(ops, op);
  }

  lemma {:induction false} BlankIsRefused(ops: seq<Op>, op: Op)
    requires Blank(op.client)
    ensures !Serve(ops + [op], true).answers[|ops|] && Serve(ops + [op], true).buckets == Serve(ops, true).buckets
  {
    assert (ops + [op])[..|ops|] == ops;
  }
}
