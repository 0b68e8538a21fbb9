/** The key/value store client of `db/redis.py`, with the Redis server it
    talks to replaced by an in-memory map. A key holds either a string (the
    JSON text of a value; serialisation is taken to be exact, so the value
    itself is kept) or a list of such strings, and may carry a time to live.
    Every operation except `connect` catches the store's exceptions and
    answers `False`, `None` or `[]` instead; the model raises them in three
    situations: the client is not connected, the key holds the other kind
    of value (Redis's WRONGTYPE error), or `SETEX` is given a negative
    expiry. */
module RedisStore {
  import opened Common
  import opened PyStr

  /** What the server holds under one key. */
  datatype Entry<V> = Str(value: V) | Lst(items: seq<V>)

  /** `if ttl:` in Python: an expiry was given and it is not zero. */
  predicate TtlGiven(ttl: Option<int>) {
    ttl.Some? && ttl.value != 0
  }

  /** How many leading items `LTRIM key 0 stop` keeps of a list of `len`
      items: a negative `stop` counts from the end, a `stop` past the end is
      clamped, and an empty range empties the list. */
  function LtrimKept(len: nat, stop: int): (n: nat)
    ensures n <= len
  {
    var e := if stop < 0 then len + stop else stop;
    if e < 0 || len == 0 then 0 else if e + 1 < len then e + 1 else len
  }

  /** `list_trim(key, m)` issues `LTRIM key 0 m-1`. For `m` at least 1 the
      list keeps its first `m` items (all of them if it is shorter); for
      `m == 0` the stop index is -1, the last item, so nothing is dropped. */
  lemma LtrimKeptByLength(len: nat, m: int)
    ensures m >= 1 ==> LtrimKept(len, m - 1) == (if m < len then m else len)
    ensures m == 0 ==> LtrimKept(len, m - 1) == len
  {
  }

  lemma {:induction false} ReverseReverse<V>(s: seq<V>)
    ensures Reverse(Reverse(s)) == s
  {
    var r := Reverse(Reverse(s));
    forall i | 0 <= i < |s| ensures r[i] == s[i] {
      assert r[i] == Reverse(s)[|s| - 1 - i];
    }
  }

  /** Reversing the first `n` items of a reversed sequence gives its last
      `n` items. */
  lemma {:induction false} ReversedPrefix<V>(s: seq<V>, n: nat)
    requires n <= |s|
    ensures Reverse(Reverse(s)[..n]) == s[|s| - n..]
  {
    var a := Reverse(s)[..n];
    var r, t := Reverse(a), s[|s| - n..];
    forall i | 0 <= i < n ensures r[i] == t[i] {
      var j := n - 1 - i;
      assert a[j] == s[|s| - 1 - j];
    }
    assert |r| == |t|;
  }

  /** A list built by pushing `pushed` one after another holds
      `Reverse(pushed)`; trimming it with `list_trim(key, m)`, `m >= 1`, and
      reading it back with `list_get_all` gives the last `m` values pushed,
      in push order. */
  lemma TrimKeepsNewest<V>(pushed: seq<V>, m: int)
    requires m >= 1
    ensures LtrimKept(|pushed|, m - 1) == (if m < |pushed| then m else |pushed|)
    ensures Reverse(Reverse(pushed)[..LtrimKept(|pushed|, m - 1)])
            == pushed[|pushed| - LtrimKept(|pushed|, m - 1)..]
  {
    LtrimKeptByLength(|pushed|, m);
    ReversedPrefix(pushed, LtrimKept(|pushed|, m - 1));
  }

  class RedisClient<V> {
    /** The client has a connection (`self.redis` is set) and the server
        answers. When it does not, every call fails and is caught. */
    var connected: bool
    var entries: map<string, Entry<V>>
    /** Remaining seconds of the keys that expire; a key without an entry
        here is persistent. Time passing is the separate step `TimeOut`. */
    var ttls: map<string, nat>

    ghost predicate Valid()
      reads this
    {
      && ttls.Keys <= entries.Keys
      && (forall k :: k in ttls ==> ttls[k] > 0)
      // Redis removes a list once its last item goes
      && (forall k :: k in entries && entries[k].Lst? ==> |entries[k].items| > 0)
    }

    /** What `get_json(key)` returns: the value of a string key, `None` for
        a missing key, a list key, or a failed call. */
    function Stored(key: string): Option<V>
      reads this
    {
      if connected && key in entries && entries[key].Str? then Some(entries[key].value) else None
    }

    /** What `TTL key` answers, as `Ttl` below reads it. */
    function TtlOf(key: string): int
      reads this
    {
      if !connected then -1
      else if key !in entries then -2
      else if key !in ttls then -1
      else ttls[key]
    }

    /** The items of the list under `key`, head first; `[]` when there is
        none. */
    function ListAt(key: string): seq<V>
      reads this
    {
      if key in entries && entries[key].Lst? then entries[key].items else []
    }

    /** `RedisClient()`: no connection yet, and an empty server. */
    constructor ()
      ensures Valid()
      ensures !connected && entries == map[] && ttls == map[]
    {
      connected := false;
      entries := map[];
      ttls := map[];
    }

    /** `connect()`: opens the connection and pings; a failed ping is logged
        and its exception re-raised. The ping's own error is not modelled:
        `Failed to connect to Redis`, the text of the log line, stands for it. */
    method Connect(reachable: bool) returns (r: Result<()>)
      requires Valid()
      modifies this
      ensures Valid()
      ensures connected == reachable && r.Ok? == reachable
      ensures entries == old(entries) && ttls == old(ttls)
    {
      connected := reachable;
      if reachable {
        r := Ok(());
      } else {
        r := Err(Upstream("Failed to connect to Redis"));
      }
    }

    /** `set_json(key, value, ttl)`: `SETEX` when a truthy ttl is given,
        plain `SET` (which also drops an earlier expiry) otherwise. */
    method SetJson(key: string, value: V, ttl: Option<int>) returns (ok: bool)
      requires Valid()
      modifies this
      ensures Valid() && connected == old(connected)
      ensures ok <==> old(connected) && !(TtlGiven(ttl) && ttl.value < 0)
      ensures ok ==> entries == old(entries)[key := Str(value)]
      ensures ok && TtlGiven(ttl) ==> ttls == old(ttls)[key := ttl.value]
      ensures ok && !TtlGiven(ttl) ==> ttls == old(ttls) - {key}
      ensures !ok ==> entries == old(entries) && ttls == old(ttls)
    {
      if !connected {
        return false;
      }
      if TtlGiven(ttl) {
        if ttl.value < 0 {
          // SETEX rejects a negative expire time; the error is caught
          return false;
        }
        entries := entries[key := Str(value)];
        ttls := ttls[key := ttl.value];
      } else {
        entries := entries[key := Str(value)];
        ttls := ttls - {key};
      }
      ok := true;
    }

    /** `get_json(key)` */
    method GetJson(key: string) returns (r: Option<V>)
      ensures r.Some? <==> connected && key in entries && entries[key].Str?
      ensures r.Some? ==> r.value == entries[key].value
    {
      if connected && key in entries && entries[key].Str? {
        r := Some(entries[key].value);
      } else {
        r := None;
      }
    }

    /** `delete(key)`: true iff a key was removed. */
    method Delete(key: string) returns (ok: bool)
      requires Valid()
      modifies this
      ensures Valid() && connected == old(connected)
      ensures ok <==> old(connected) && key in old(entries)
      ensures connected ==> entries == old(entries) - {key} && ttls == old(ttls) - {key}
      ensures !connected ==> entries == old(entries) && ttls == old(ttls)
    {
      if !connected {
        return false;
      }
      ok := key in entries;
      entries := entries - {key};
      ttls := ttls - {key};
    }

    /** `exists(key)` */
    method Exists(key: string) returns (b: bool)
      ensures b <==> connected && key in entries
    {
      b := connected && key in entries;
    }

    /** `expire(key, ttl)`: only an existing key is touched. Redis deletes a
        key whose new expiry is not positive. */
    method Expire(key: string, ttl: int) returns (ok: bool)
      requires Valid()
      modifies this
      ensures Valid() && connected == old(connected)
      ensures ok <==> old(connected) && key in old(entries)
      ensures ok && ttl > 0 ==> entries == old(entries) && ttls == old(ttls)[key := ttl]
      ensures ok && ttl <= 0 ==> entries == old(entries) - {key} && ttls == old(ttls) - {key}
      ensures !ok ==> entries == old(entries) && ttls == old(ttls)
    {
      if !connected || key !in entries {
        return false;
      }
      if ttl > 0 {
        ttls := ttls[key := ttl];
      } else {
        entries := entries - {key};
        ttls := ttls - {key};
      }
      ok := true;
    }

    /** `list_push(key, value, ttl)`: `LPUSH` puts the value at the head,
        then a truthy ttl is applied with `EXPIRE`. */
    method ListPush(key: string, value: V, ttl: Option<int>) returns (ok: bool)
      requires Valid()
      modifies this
      ensures Valid() && connected == old(connected)
      ensures ok <==> old(connected) && !(key in old(entries) && old(entries)[key].Str?)
      ensures ok && !(TtlGiven(ttl) && ttl.value < 0) ==>
                entries == old(entries)[key := Lst([value] + old(ListAt(key)))]
      ensures ok && TtlGiven(ttl) && ttl.value > 0 ==> ttls == old(ttls)[key := ttl.value]
      ensures ok && !TtlGiven(ttl) ==> ttls == old(ttls)
      ensures ok && TtlGiven(ttl) && ttl.value < 0 ==>
                entries == old(entries) - {key} && ttls == old(ttls) - {key}
      ensures !ok ==> entries == old(entries) && ttls == old(ttls)
    {
      if !connected || (key in entries && entries[key].Str?) {
        return false;
      }
      entries := entries[key := Lst([value] + ListAt(key))];
      if TtlGiven(ttl) {
        var _ := Expire(key, ttl.value);
      }
      ok := true;
    }

    /** `list_get_all(key)`: `LRANGE key 0 -1` read back in reverse, which
        is push order. */
    method ListGetAll(key: string) returns (vs: seq<V>)
      ensures vs == if connected && key in entries && entries[key].Lst?
                    then Reverse(entries[key].items) else []
    {
      if connected && key in entries && entries[key].Lst? {
        vs := Reverse(entries[key].items);
      } else {
        vs := [];
      }
    }

    /** `list_trim(key, max_length)`: `LTRIM key 0 max_length-1`; a list
        trimmed to nothing is removed. A missing key is left alone. */
    method ListTrim(key: string, maxLength: int) returns (ok: bool)
      requires Valid()
      modifies this
      ensures Valid() && connected == old(connected)
      ensures ok <==> old(connected) && !(key in old(entries) && old(entries)[key].Str?)
      ensures ok && key in old(entries) ==>
                var items := old(entries)[key].items;
                var n := LtrimKept(|items|, maxLength - 1);
                if n == 0 then entries == old(entries) - {key} && ttls == old(ttls) - {key}
                else entries == old(entries)[key := Lst(items[..n])] && ttls == old(ttls)
      ensures (ok && key !in old(entries)) || !ok ==> entries == old(entries) && ttls == old(ttls)
    {
      if !connected || (key in entries && entries[key].Str?) {
        return false;
      }
      if key in entries {
        var items := entries[key].items;
        var n := LtrimKept(|items|, maxLength - 1);
        if n == 0 {
          entries := entries - {key};
          ttls := ttls - {key};
        } else {
          entries := entries[key := Lst(items[..n])];
        }
      }
      ok := true;
    }

    /** `keys(prefix + "*")`: every key that starts with `prefix`, once
        each, in no particular order. */
    method Keys(prefix: string) returns (ks: seq<string>)
      ensures forall k :: k in ks <==> connected && k in entries && StartsWith(k, prefix)
      ensures forall i, j :: 0 <= i < j < |ks| ==> ks[i] != ks[j]
    {
      ks := [];
      if !connected {
        return;
      }
      var rest := entries.Keys;
      while rest != {}
        invariant rest <= entries.Keys
        invariant forall k :: k in ks <==> k in entries && k !in rest && StartsWith(k, prefix)
        invariant forall i, j :: 0 <= i < j < |ks| ==> ks[i] != ks[j]
        decreases rest
      {
        var k :| k in rest;
        if StartsWith(k, prefix) {
          ks := ks + [k];
        }
        rest := rest - {k};
      }
    }

    /** Redis `TTL key`: -2 for a missing key, -1 for a persistent one, the
        remaining seconds otherwise; -1 without a connection, as the
        callers' `if self.redis.redis else -1` reads. */
    method Ttl(key: string) returns (t: int)
      requires Valid()
      ensures !connected ==> t == -1
      ensures connected && key !in entries ==> t == -2
      ensures connected && key in entries && key !in ttls ==> t == -1
      ensures connected && key in ttls ==> t == ttls[key]
      ensures t == TtlOf(key)
    {
      if !connected {
        t := -1;
      } else if key !in entries {
        t := -2;
      } else if key !in ttls {
        t := -1;
      } else {
        t := ttls[key];
      }
    }

    /** The passage of time: a key whose time to live has run out is gone.
        Nothing in the client does this; it stands for the server. */
    method TimeOut(key: string)
      requires Valid()
      modifies this
      ensures Valid() && connected == old(connected)
      ensures key in old(ttls) ==> entries == old(entries) - {key} && ttls == old(ttls) - {key}
      ensures key !in old(ttls) ==> entries == old(entries) && ttls == old(ttls)
    {
      if key in ttls {
        entries := entries - {key};
        ttls := ttls - {key};
      }
    }
  }

  /** `set_json` followed by `get_json` on the same key gives the value back,
      whenever the write reported success. */
  method SetThenGet<V>(store: RedisClient<V>, key: string, value: V, ttl: Option<int>)
    returns (ok: bool, back: Option<V>)
    requires store.Valid()
    modifies store
    ensures store.Valid()
    ensures ok ==> back == Some(value)
    ensures !ok ==> back == old(store.Stored(key))
  {
    ok := store.SetJson(key, value, ttl);
    back := store.GetJson(key);
  }

  /** Pushing `values` one by one onto a fresh key and reading the list back
      gives them in push order; trimming to `m >= 1` first keeps the newest
      `m` of them. */
  method PushAllThenGetAll<V>(store: RedisClient<V>, key: string, values: seq<V>, m: int)
    returns (all: seq<V>, kept: seq<V>)
    requires store.Valid() && store.connected && key !in store.entries
    requires m >= 1
    modifies store
    ensures store.Valid()
    ensures all == values
    ensures kept == values[|values| - (if m < |values| then m else |values|)..]
  {
    var i := 0;
    while i < |values|
      invariant 0 <= i <= |values|
      invariant store.Valid() && store.connected
      invariant i == 0 ==> key !in store.entries
      invariant i > 0 ==> key in store.entries && store.entries[key] == Lst(Reverse(values[..i]))
    {
      var ok := store.ListPush(key, values[i], None);
      assert ok;
      assert Reverse(values[..i + 1]) == [values[i]] + Reverse(values[..i]) by {
        RevSnoc(values[..i], values[i]);
        assert values[..i + 1] == values[..i] + [values[i]];
      }
      i := i + 1;
    }
    assert values[..|values|] == values;
    all := store.ListGetAll(key);
    if |values| > 0 {
      ReverseReverse(values);
    }
    var _ := store.ListTrim(key, m);
    kept := store.ListGetAll(key);
    if |values| > 0 {
      TrimKeepsNewest(values, m);
    }
  }

  lemma {:induction false} RevSnoc<V>(s: seq<V>, x: V)
    ensures Reverse(s + [x]) == [x] + Reverse(s)
  {
    var a, b := Reverse(s + [x]), [x] + Reverse(s);
    assert |a| == |b|;
    forall i | 0 <= i < |a| ensures a[i] == b[i] {
      if i > 0 {
        assert a[i] == (s + [x])[|s| - i];
      }
    }
  }
}
