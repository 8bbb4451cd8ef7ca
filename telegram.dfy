/**
 * Checking the launch payload ("init data") of a Telegram Mini App, following
 * the Telegram Bot API procedure "Validating data received via the Mini App":
 * every field except `hash`, sorted by key and written `key=value`, joined by
 * line feeds, is signed with HMAC-SHA-256 under the key
 * HMAC-SHA-256("WebAppData", bot token); the payload is genuine when the hex
 * digest equals the `hash` field.
 *
 * `main.py` and `backend/main.py` carry the same `validate_telegram_data`;
 * it is modelled once, here.
 */
module TelegramInitData {
  import opened Wrappers
  import opened PyText
  import opened KeyOrder

  type Bytes = seq<bv8>

  /** The primitives the check calls but does not define: UTF-8 `str.encode()`,
      `hmac.new(key, msg, sha256).digest()` and `.hexdigest()`. */
  datatype Crypto = Crypto(
    encode: string -> Bytes,
    hmacDigest: (Bytes, Bytes) -> Bytes,
    hmacHexDigest: (Bytes, Bytes) -> string)

  /** The result of `parse_qs`: every key with the list of its values. */
  type QueryParams = map<string, seq<string>>

  const HashKey: string := "hash"
  const SecretKeyLabel: string := "WebAppData"

  /** The hex signature a genuine payload with this data-check string carries. */
  function ExpectedHash(crypto: Crypto, botToken: string, checkString: string): string
  {
    var secretKey := crypto.hmacDigest(crypto.encode(SecretKeyLabel), crypto.encode(botToken));
    crypto.hmacHexDigest(secretKey, crypto.encode(checkString))
  }

  /** Every field other than `hash` has a first value to sign. */
  predicate FirstValuesPresent(params: QueryParams)
  {
    forall k :: k in params && k != HashKey ==> params[k] != []
  }

  function Field(key: string, value: string): string
  {
    key + "=" + value
  }

  /** One `key=first value` entry for each of `keys`, in their order. */
  function Fields(params: QueryParams, keys: seq<string>): (parts: seq<string>)
    requires forall k :: k in keys ==> k in params && params[k] != []
    ensures |parts| == |keys|
    ensures forall i :: 0 <= i < |keys| ==> parts[i] == Field(keys[i], params[keys[i]][0])
  {
    if keys == [] then []
    else Fields(params, keys[..|keys| - 1]) + [Field(keys[|keys| - 1], params[keys[|keys| - 1]][0])]
  }

  /** The keys that are signed, in ascending order. */
  function SignedKeys(params: QueryParams): seq<string>
  {
    SortedKeys(params.Keys - {HashKey})
  }

  /** The data-check string of a payload. */
  function DataCheckString(params: QueryParams): string
    requires FirstValuesPresent(params)
  {
    Join(Fields(params, SignedKeys(params)), '\n')
  }

  /** A payload is genuine: it parsed, carries a `hash`, every signed field has a
      value, and the signature over the data-check string matches. */
  predicate InitDataValid(crypto: Crypto, parsed: Option<QueryParams>, botToken: string)
  {
    && parsed.Some?
    && HashKey in parsed.value && parsed.value[HashKey] != []
    && FirstValuesPresent(parsed.value)
    && ExpectedHash(crypto, botToken, DataCheckString(parsed.value)) == parsed.value[HashKey][0]
  }

  /**
   * `validate_telegram_data`. `parsed` is what `parse_qs` made of the payload
   * (`None` when parsing raised); every exception inside the check makes it
   * answer false, and none escapes.
   */
  method ValidateTelegramData(crypto: Crypto, parsed: Option<QueryParams>, botToken: string)
    returns (valid: bool)
    ensures valid == InitDataValid(crypto, parsed, botToken)
    ensures parsed.None? ==> !valid
    ensures parsed.Some? && (HashKey !in parsed.value || parsed.value[HashKey] == []) ==> !valid
  {
    if parsed.None? {
      return false;
    }
    var params := parsed.value;
    if HashKey !in params || params[HashKey] == [] {
      return false;
    }
    var hashReceived := params[HashKey][0];
    var parts := SignedFields(params);
    if parts.None? {
      return false;
    }
    var checkString := Join(parts.value, '\n');
    var calculatedHash := ExpectedHash(crypto, botToken, checkString);
    valid := calculatedHash == hashReceived;
  }

  /** The `key=value` entries of the data-check string, built in ascending key
      order and skipping `hash`; `None` where a field without value makes
      `value[0]` raise. */
  method SignedFields(params: QueryParams) returns (parts: Option<seq<string>>)
    ensures parts.Some? <==> FirstValuesPresent(params)
    ensures parts.Some? ==> parts.value == Fields(params, SignedKeys(params))
  {
    var fields: seq<string> := [];
    var keys := SortedKeys(params.Keys);
    ghost var signed: seq<string> := [];
    for i := 0 to |keys|
      invariant signed == Without(keys[..i], HashKey)
      invariant forall k :: k in signed ==> k in params && params[k] != []
      invariant fields == Fields(params, signed)
    {
      var key := keys[i];
      WithoutSnoc(keys, i, HashKey);
      if key != HashKey {
        var values := params[key];
        if values == [] {
          // `value[0]` raises IndexError
          return None;
        }
        FieldsSnoc(params, signed, key);
        fields := fields + [Field(key, values[0])];
        signed := signed + [key];
      }
    }
    SignedKeysListed(params, keys, signed);
    parts := Some(fields);
  }

  lemma FieldsSnoc(params: QueryParams, keys: seq<string>, key: string)
    requires forall k :: k in keys ==> k in params && params[k] != []
    requires key in params && params[key] != []
    ensures Fields(params, keys + [key]) == Fields(params, keys) + [Field(key, params[key][0])]
  {
    assert (keys + [key])[..|keys|] == keys;
  }

  /** What the loop of `ValidateTelegramData` has gathered once it has seen every key. */
  lemma SignedKeysListed(params: QueryParams, keys: seq<string>, signed: seq<string>)
    requires keys == SortedKeys(params.Keys) && signed == Without(keys[..|keys|], HashKey)
    requires forall k :: k in signed ==> k in params && params[k] != []
    ensures signed == SignedKeys(params) && FirstValuesPresent(params)
  {
    assert keys[..|keys|] == keys;
    SortedWithout(params.Keys, HashKey);
    forall k | k in params && k != HashKey ensures params[k] != [] {
      assert k in keys;
    }
  }

  /** The data-check string lists one `key=first value` line per field other than
      `hash`, in ascending key order: splitting it at line feeds gives those lines
      back whenever no key or value itself holds a line feed. */
  lemma DataCheckLines(params: QueryParams)
    requires FirstValuesPresent(params) && params.Keys - {HashKey} != {}
    requires forall k :: k in params && k != HashKey ==> '\n' !in k && '\n' !in params[k][0]
    ensures var keys := SignedKeys(params);
      && Split(DataCheckString(params), '\n') == Fields(params, keys)
      && |keys| == |params.Keys - {HashKey}|
      && (forall i :: 0 <= i < |keys| ==> keys[i] in params && keys[i] != HashKey)
      && (forall i, j :: 0 <= i < j < |keys| ==> Less(keys[i], keys[j]))
  {
    var keys := SignedKeys(params);
    var parts := Fields(params, keys);
    assert |keys| >= 1 by { var k :| k in params.Keys - {HashKey}; assert k in keys; }
    forall i | 0 <= i < |parts| ensures '\n' !in parts[i] {
      assert keys[i] in params;
    }
    SplitJoin(parts, '\n');
  }

  /** With no field besides `hash` the data-check string is empty: no separator
      is ever written after the last line. */
  lemma DataCheckStringEmpty(params: QueryParams)
    requires params.Keys <= {HashKey}
    ensures FirstValuesPresent(params) && DataCheckString(params) == ""
  {
    assert params.Keys - {HashKey} == {};
  }

  lemma FieldsAgree(p: QueryParams, q: QueryParams, keys: seq<string>)
    requires forall k :: k in keys ==> k in p && p[k] != [] && k in q && q[k] != [] && p[k][0] == q[k][0]
    ensures Fields(p, keys) == Fields(q, keys)
  {
    var fp, fq := Fields(p, keys), Fields(q, keys);
    forall i | 0 <= i < |keys| ensures fp[i] == fq[i] {
      assert keys[i] in keys;
    }
  }

  /** Only the first value of each signed field and nothing of the `hash` field
      enters the data-check string. */
  lemma DataCheckStringUsesFirstValues(p: QueryParams, q: QueryParams)
    requires FirstValuesPresent(p) && FirstValuesPresent(q)
    requires p.Keys - {HashKey} == q.Keys - {HashKey}
    requires forall k :: k in p && k != HashKey ==> k in q && p[k][0] == q[k][0]
    ensures DataCheckString(p) == DataCheckString(q)
  {
    var keys := SignedKeys(p);
    assert keys == SignedKeys(q);
    FieldsAgree(p, q, keys);
  }

  /** Whether a payload is accepted depends only on its signed fields' first
      values and the first value of `hash`. */
  lemma ValidityUsesFirstValues(crypto: Crypto, p: QueryParams, q: QueryParams, botToken: string)
    requires p.Keys == q.Keys && HashKey in p && p[HashKey] != [] && q[HashKey] != []
    requires p[HashKey][0] == q[HashKey][0]
    requires forall k :: k in p ==> (p[k] == []) == (q[k] == [])
    requires forall k :: k in p && p[k] != [] ==> p[k][0] == q[k][0]
    ensures InitDataValid(crypto, Some(p), botToken) == InitDataValid(crypto, Some(q), botToken)
  {
    if FirstValuesPresent(p) {
      DataCheckStringUsesFirstValues(p, q);
    }
  }
}
