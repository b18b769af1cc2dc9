/**
 * Header handling: the `-header "Key: Value"` flag, the bearer-token
 * override, and the merge of the configured headers into each outgoing call.
 * Keys are taken to be in canonical form already (Go canonicalises them
 * inside http.Header's methods).
 */
module Headers {
  import opened Wrappers
  import opened Strings

  type HeaderMap = map<string, seq<string>>

  /** The values recorded for `k`, or none. */
  function ValuesOf(h: HeaderMap, k: string): seq<string>
  {
    if k in h then h[k] else []
  }

  /** A multi-valued header map that its methods update in place (Go's http.Header). */
  class Header {
    var values: HeaderMap

    constructor ()
      ensures values == map[]
    {
      values := map[];
    }

    /** Header.Add: `v` goes after the values already held for `k`. */
    method Add(k: string, v: string)
      modifies this
      ensures values == old(values)[k := ValuesOf(old(values), k) + [v]]
    {
      values := values[k := ValuesOf(values, k) + [v]];
    }

    /** Header.Set: `k` holds exactly `v` afterwards. */
    method Set(k: string, v: string)
      modifies this
      ensures values == old(values)[k := [v]]
    {
      values := values[k := [v]];
    }

    /** Header.Del: `k` holds nothing afterwards. */
    method Del(k: string)
      modifies this
      ensures values == old(values) - {k}
    {
      values := values - {k};
    }
  }

  const InvalidHeaderFormat := "err invalid header format: expecting `key: value`"

  /**
   * headerFlags.Set: the text up to the first `:` is the key and the rest,
   * without its leading spaces, is one more value for that key. Text without
   * a `:` is refused and changes nothing.
   */
  method SetHeaderFlag(flags: Header, value: string) returns (err: Option<string>)
    modifies flags
    ensures err.Some? <==> ':' !in value
    ensures err.Some? ==> err.value == InvalidHeaderFormat && flags.values == old(flags.values)
    ensures err.None? ==>
      var c := Cut(value, ':');
      flags.values == old(flags.values)[c.before := ValuesOf(old(flags.values), c.before) + [TrimLeft(c.after, ' ')]]
  {
    var c := Cut(value, ':');
    if !c.found {
      return Some(InvalidHeaderFormat);
    }
    flags.Add(c.before, TrimLeft(c.after, ' '));
    return None;
  }

  /**
   * A flag written as `key + ": " + value`, with no `:` in the key and no
   * leading space in the value, is read back as that key and that value.
   */
  lemma HeaderFlagRoundTrip(key: string, value: string)
    requires ':' !in key
    requires value == [] || value[0] != ' '
    ensures Cut(key + ": " + value, ':') == CutResult(key, " " + value, true)
    ensures TrimLeft(" " + value, ' ') == value
  {
    var rest := " " + value;
    assert ": " == [':'] + " ";
    assert key + ([':'] + " ") + value == key + [':'] + (" " + value);
    CutUnique(key, rest, ':');
    assert rest != [] && rest[0] == ' ' && rest[1..] == value;
    assert TrimLeft(rest, ' ') == TrimLeft(value, ' ');
  }

  /** The `-bearer` token: when non-empty it replaces every Authorization value. */
  method ApplyBearer(headers: Header, token: string)
    modifies headers
    ensures token != "" ==> headers.values == old(headers.values)["Authorization" := ["Bearer " + token]]
    ensures token == "" ==> headers.values == old(headers.values)
  {
    if token != "" {
      headers.Set("Authorization", "Bearer " + token);
    }
  }

  /**
   * The per-call merge in the tool handler: for each configured key, in the
   * map's arbitrary iteration order, a single value is Set, and otherwise the
   * key is deleted and every configured value is added in order. So each
   * configured key ends with exactly its configured values (none at all for
   * an empty list) and every other key of the request is left alone.
   */
  method MergeConfigured(req: Header, headers: HeaderMap)
    modifies req
    ensures forall k :: k in headers && headers[k] != [] ==> k in req.values && req.values[k] == headers[k]
    ensures forall k :: k in headers && headers[k] == [] ==> k !in req.values
    ensures forall k :: k !in headers ==>
      (k in req.values <==> k in old(req.values)) && (k in req.values ==> req.values[k] == old(req.values)[k])
  {
    if |headers| > 0 {
      var keys := headers.Keys;
      while keys != {}
        invariant keys <= headers.Keys
        invariant forall k :: k in headers && k !in keys && headers[k] != [] ==>
          k in req.values && req.values[k] == headers[k]
        invariant forall k :: k in headers && k !in keys && headers[k] == [] ==> k !in req.values
        invariant forall k :: (k !in headers || k in keys) ==>
          (k in req.values <==> k in old(req.values)) && (k in req.values ==> req.values[k] == old(req.values)[k])
        decreases keys
      {
        var k :| k in keys;
        keys := keys - {k};
        MergeKey(req, k, headers[k]);
      }
    }
  }

  /**
   * One configured key of the merge: a single value is Set; otherwise the key
   * is deleted and the values are added one by one, so the key ends with
   * exactly `v`, or is absent when `v` is empty.
   */
  method MergeKey(req: Header, k: string, v: seq<string>)
    modifies req
    ensures v != [] ==> req.values == old(req.values)[k := v]
    ensures v == [] ==> req.values == old(req.values) - {k}
  {
    if |v| == 1 {
      req.Set(k, v[0]);
      assert [v[0]] == v;
    } else {
      req.Del(k);
      ghost var cleared := req.values;
      for i := 0 to |v|
        invariant req.values == if i == 0 then cleared else cleared[k := v[..i]]
      {
        req.Add(k, v[i]);
        assert v[..i + 1] == v[..i] + [v[i]];
      }
      assert v[..|v|] == v;
    }
  }

  /** A configured X-A: 2 replaces the X-A: 1 the request already carries. */
  method OverrideReplacesValue() returns (values: HeaderMap)
    ensures values == map["X-A" := ["2"]]
  {
    var req := new Header();
    req.Set("X-A", "1");
    MergeConfigured(req, map["X-A" := ["2"]]);
    assert req.values.Keys == {"X-A"};
    values := req.values;
  }
}
