/**
 * The plain JavaScript objects the renderer stores and passes around:
 * string-keyed records of JSON-like values. An absent key is `undefined`.
 */
module Records {
  import opened Wrappers

  datatype Value = Str(s: string) | Num(n: int) | Bool(b: bool)

  type Record = map<string, Value>

  /** `r.key`, `None` when undefined. */
  function Field(r: Record, key: string): Option<Value> {
    Get(r, key)
  }

  /** `{ ...base, ...update }`: every key of `update` wins, the other keys of `base` stay. */
  function Spread(base: Record, update: Record): (r: Record)
    ensures r.Keys == base.Keys + update.Keys
    ensures forall k :: k in update ==> r[k] == update[k]
    ensures forall k :: k in base && k !in update ==> r[k] == base[k]
  {
    base + update
  }

  /** Spreading the same update twice is spreading it once. */
  lemma SpreadIdempotent(base: Record, update: Record)
    ensures Spread(Spread(base, update), update) == Spread(base, update)
  {
  }

  /** `{ k1: r.k1, k2: r.k2, ... }` for the keys in `keys`, leaving undefined ones out. */
  function Pick(r: Record, keys: set<string>): (p: Record)
    ensures p.Keys == r.Keys * keys
    ensures forall k :: k in p ==> p[k] == r[k]
  {
    map k | k in r && k in keys :: r[k]
  }
}
