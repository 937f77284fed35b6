/**
 * Topic routing and timestamp injection, as `listen_to_serial` applies them to a parsed
 * line: the topic is the base topic, extended by `/` and the routing field's value when
 * the field is present; a `timestamp` entry holding the read time is added when absent.
 */
module Router {
  import opened Wrappers
  import opened Json

  const TimestampKey := "timestamp"

  /** The topic chosen for `data`; `None` where a Python operation on `data` raises. */
  function RouteTopic(base: string, field: string, data: JsonValue): Option<string> {
    var routed :- PyContains(data, field);
    if routed then
      var value :- PyGetItem(data, field);
      Some(base + "/" + Str(value))
    else
      Some(base)
  }

  /** `data` with the read time added as `timestamp` when absent; `None` where Python raises. */
  function StampTimestamp(data: JsonValue, now: string): Option<JsonValue> {
    var present :- PyContains(data, TimestampKey);
    if present then Some(data) else PySetItem(data, TimestampKey, JString(now))
  }

  /** The routed part of `topic` below `base`, if `topic` lies strictly below `base`. */
  function SubTopic(base: string, topic: string): Option<string> {
    if |topic| > |base| && topic[..|base| + 1] == base + "/" then Some(topic[|base| + 1..]) else None
  }

  /**
   * For an object the topic is always defined; it is the base topic exactly when the routing
   * field is absent, and otherwise the routed part is the field's stringified value.
   */
  lemma ObjectTopic(base: string, field: string, m: Members)
    ensures RouteTopic(base, field, JObject(m)).Some?
    ensures var t := RouteTopic(base, field, JObject(m)).value;
      && (t == base <==> !HasKey(m, field))
      && SubTopic(base, t) == (if HasKey(m, field) then Some(Str(Lookup(m, field))) else None)
  {
  }

  /** Every topic the bridge can choose lies at or below the base topic. */
  lemma TopicUnderBase(base: string, field: string, data: JsonValue)
    ensures RouteTopic(base, field, data).Some? ==> base <= RouteTopic(base, field, data).value
  {
  }

  /** Assigning an absent key appends the entry at the end. */
  lemma {:induction false} SetAbsentKeyAppends(m: Members, k: string, v: JsonValue)
    requires !HasKey(m, k)
    ensures SetKey(m, k, v) == m + [(k, v)]
  {
    if m != [] {
      SetAbsentKeyAppends(m[1..], k, v);
      assert m == [m[0]] + m[1..];
    }
  }

  /**
   * For an object, the published payload is the parsed object with a `timestamp` entry
   * holding `now` appended exactly when the key was absent; otherwise it is the object itself.
   */
  lemma StampObject(m: Members, now: string)
    ensures StampTimestamp(JObject(m), now).Some?
    ensures StampTimestamp(JObject(m), now).value.JObject?
    ensures var m' := StampTimestamp(JObject(m), now).value.members;
      && (HasKey(m, TimestampKey) ==> m' == m)
      && (!HasKey(m, TimestampKey) ==> m' == m + [(TimestampKey, JString(now))])
  {
    if !HasKey(m, TimestampKey) {
      SetAbsentKeyAppends(m, TimestampKey, JString(now));
    }
  }

  /**
   * The stamped object holds `timestamp`, with its old value if it had one and `now`
   * otherwise; every other key is present exactly when it was, with the same value.
   */
  lemma StampedLookups(m: Members, now: string, k: string)
    ensures StampTimestamp(JObject(m), now).Some?
    ensures StampTimestamp(JObject(m), now).value.JObject?
    ensures var m' := StampTimestamp(JObject(m), now).value.members;
      && HasKey(m', TimestampKey)
      && Lookup(m', TimestampKey) == (if HasKey(m, TimestampKey) then Lookup(m, TimestampKey) else JString(now))
      && (k != TimestampKey ==> (HasKey(m', k) <==> HasKey(m, k)))
      && (k != TimestampKey && HasKey(m, k) ==> Lookup(m', k) == Lookup(m, k))
  {
    StampObject(m, now);
    AppendEntry(m, TimestampKey, JString(now), TimestampKey);
    AppendEntry(m, TimestampKey, JString(now), k);
  }

  /** Stamping keeps a dict a dict: no key occurs twice afterwards if none did before. */
  lemma StampKeepsKeysUnique(m: Members, now: string)
    requires UniqueKeys(m)
    ensures StampTimestamp(JObject(m), now).Some?
    ensures StampTimestamp(JObject(m), now).value.JObject?
    ensures UniqueKeys(StampTimestamp(JObject(m), now).value.members)
  {
    StampObject(m, now);
    if !HasKey(m, TimestampKey) {
      var m' := m + [(TimestampKey, JString(now))];
      HasKeyIndex(m, TimestampKey);
      forall i, j | 0 <= i < j < |m'| ensures m'[i].0 != m'[j].0 {
        if j == |m| { assert m[i].0 != TimestampKey; }
      }
    }
  }
}
