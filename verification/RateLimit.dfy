/** The per-client token buckets of apiserver/middleware/ratelimit.go.

    Tokens and times are reals, so float rounding is not modelled.  Every reading of the clock is a
    parameter.  A request reads it twice when it has to create the bucket: once in the bucket's
    constructor and once in `allow`. */
module RateLimit {

  datatype Config = Config(rate: real, burst: int, staleAfter: real)

  /** The mutable part of one bucket. */
  datatype Bucket = Bucket(tokens: real, lastTime: real)

  const DefaultConfig := Config(10.0, 20, 600.0)

  function FullBucket(cfg: Config, t: real): Bucket {
    Bucket(cfg.burst as real, t)
  }

  /** Tokens that flow in over `elapsed` seconds. */
  function Inflow(cfg: Config, elapsed: real): real {
    elapsed * cfg.rate
  }

  /** Tokens in `b` at time `now`, capped at the burst. */
  function Level(cfg: Config, b: Bucket, now: real): real {
    var refilled := b.tokens + Inflow(cfg, now - b.lastTime);
    if refilled > cfg.burst as real then cfg.burst as real else refilled
  }

  predicate Admits(cfg: Config, b: Bucket, now: real) {
    Level(cfg, b, now) >= 1.0
  }

  function AfterCall(cfg: Config, b: Bucket, now: real): Bucket {
    Bucket(if Admits(cfg, b, now) then Level(cfg, b, now) - 1.0 else Level(cfg, b, now), now)
  }

  lemma SameLimits(c: Config, d: Config, b: Bucket, now: real)
    requires c.rate == d.rate && c.burst == d.burst
    ensures Level(c, b, now) == Level(d, b, now)
  {
  }

  class TokenBucket {
    var tokens: real
    const maxTokens: int
    const rate: real
    var lastTime: real

    ghost function State(): Bucket
      reads this
    {
      Bucket(tokens, lastTime)
    }

    /** The limits this bucket was made with. */
    ghost function Own(): Config {
      Config(rate, maxTokens, 0.0)
    }

    constructor (rate: real, burst: int, now: real)
      ensures State() == Bucket(burst as real, now)
      ensures this.rate == rate && maxTokens == burst
    {
      tokens := burst as real;
      maxTokens := burst;
      this.rate := rate;
      lastTime := now;
    }

    method Allow(now: real) returns (ok: bool)
      modifies this
      ensures ok == Admits(Own(), old(State()), now)
      ensures State() == AfterCall(Own(), old(State()), now)
    {
      var elapsed := now - lastTime;
      lastTime := now;
      var refill := elapsed * rate;
      assert refill == Inflow(Own(), elapsed);
      hide Inflow;
      tokens := tokens + refill;
      if tokens > maxTokens as real {
        tokens := maxTokens as real;
      }
      if tokens < 1.0 {
        return false;
      }
      tokens := tokens - 1.0;
      return true;
    }
  }

  type Table = map<string, Bucket>

  /** The bucket a request from `ip` is charged to: the stored one, or a full one made on the spot. */
  function Charged(cfg: Config, m: Table, ip: string, created: real): Bucket {
    if ip in m then m[ip] else FullBucket(cfg, created)
  }

  function Sweep(cfg: Config, m: Table, now: real): Table {
    map ip | ip in m && now - m[ip].lastTime <= cfg.staleAfter :: m[ip]
  }

  class RateLimiter {
    const cfg: Config
    var buckets: map<string, TokenBucket>

    ghost predicate Valid()
      reads this
    {
      && (forall ip | ip in buckets :: buckets[ip].rate == cfg.rate && buckets[ip].maxTokens == cfg.burst)
      && (forall a, b | a in buckets && b in buckets && a != b :: buckets[a] != buckets[b])
    }

    ghost function Contents(): Table
      reads this, buckets.Values
    {
      map ip | ip in buckets :: buckets[ip].State()
    }

    constructor (cfg: Config)
      ensures Valid() && this.cfg == cfg && Contents() == map[]
    {
      this.cfg := cfg;
      buckets := map[];
    }

    method Allow(ip: string, created: real, now: real) returns (ok: bool)
      requires Valid()
      modifies this, buckets.Values
      ensures Valid() && fresh(buckets.Values - old(buckets.Values))
      ensures ok == Admits(cfg, Charged(cfg, old(Contents()), ip, created), now)
      ensures Contents() == old(Contents())[ip := AfterCall(cfg, Charged(cfg, old(Contents()), ip, created), now)]
    {
      if ip !in buckets {
        var bucket := new TokenBucket(cfg.rate, cfg.burst, created);
        buckets := buckets[ip := bucket];
      }
      assert ip in buckets.Keys && buckets[ip] in buckets.Values;
      SameLimits(cfg, buckets[ip].Own(), buckets[ip].State(), now);
      ok := buckets[ip].Allow(now);
    }

    /** One tick of the background cleaner. */
    method Cleanup(now: real)
      requires Valid()
      modifies this`buckets
      ensures Valid() && buckets.Values <= old(buckets.Values)
      ensures Contents() == Sweep(cfg, old(Contents()), now)
      ensures forall ip | ip in old(buckets) :: ip in buckets <==> now - old(buckets[ip].lastTime) <= cfg.staleAfter
    {
      var todo := buckets.Keys;
      while todo != {}
        invariant Valid() && todo <= buckets.Keys <= old(buckets.Keys)
        invariant forall ip | ip in buckets :: buckets[ip] == old(buckets[ip])
        invariant forall ip | ip in old(buckets) && ip !in todo ::
            ip in buckets <==> now - old(buckets[ip].lastTime) <= cfg.staleAfter
      {
        var ip :| ip in todo;
        if now - buckets[ip].lastTime > cfg.staleAfter {
          buckets := buckets - {ip};
        }
        todo := todo - {ip};
      }
    }
  }
}
