/** Vocabulary shared by every component: identifiers, optional values, errors and digests. */
module Basics {
  /** Rows, tokens and jtis are named by numbers drawn from counters: a uuid or random token is always fresh. */
  type Id = nat

  datatype Option<+T> = None | Some(value: T)

  function GetOr<T>(o: Option<T>, default: T): T {
    if o.Some? then o.value else default
  }

  /** The error classes of the HTTP layer that a service can throw. */
  datatype Error =
    | AuthenticationError
    | AuthorizationError
    | AccountLocked(until: nat)
    | NotFound
    | Validation
    | Conflict
    | DatabaseError

  datatype Result<+T> = Ok(value: T) | Err(error: Error)

  /** SHA-256 as a free constructor: injective, and no digest can be produced without its preimage. */
  datatype Digest<+T> = Sha256(preimage: T)
}

/** The clock, in milliseconds, and the part of Redis the services use: keys that expire. */
module Redis {
  import opened Basics

  const MS_PER_SECOND: nat := 1000

  /** JWT times are whole seconds. */
  function Sec(ms: nat): nat { ms / MS_PER_SECOND }

  datatype Entry<+V> = Entry(value: V, expiresAt: nat)

  type Cache<!K, +V> = map<K, Entry<V>>

  predicate Live<K, V>(m: Cache<K, V>, k: K, now: nat) {
    k in m && now < m[k].expiresAt
  }

  function Get<K, V>(m: Cache<K, V>, k: K, now: nat): Option<V> {
    if Live(m, k, now) then Some(m[k].value) else None
  }

  function SetEx<K, V>(m: Cache<K, V>, k: K, v: V, ttlSeconds: nat, now: nat): Cache<K, V> {
    m[k := Entry(v, now + ttlSeconds * MS_PER_SECOND)]
  }
}
