/** The per-identity byte counter `total_data_usage` (grass.py:20, 31-32). */
module Usage {

  /** Identity to accumulated byte count; identities never seen are absent. */
  type Table = map<string, nat>

  /** `total_data_usage.get(user, 0)`. */
  function UsageOf(t: Table, user: string): nat
  {
    if user in t then t[user] else 0
  }

  /** The update for one received frame of `n` bytes: the receiving identity's
      entry becomes its old count (zero when absent) plus `n`; every other
      entry is untouched and no count goes down. */
  function Record(t: Table, user: string, n: nat): (t': Table)
    ensures t'.Keys == t.Keys + {user}
    ensures t'[user] == UsageOf(t, user) + n
    ensures forall u :: u in t && u != user ==> t'[u] == t[u]
    ensures forall u {:trigger UsageOf(t', u)} :: UsageOf(t, u) <= UsageOf(t', u)
  {
    t[user := UsageOf(t, user) + n]
  }
}
