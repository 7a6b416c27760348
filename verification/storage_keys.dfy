/** Object keys under which the raw and the parsed report are stored,
    `raw-reports/{report_id}.gz` and `parsed-reports/{report_id}.json`,
    and the inverse that recovers the report id from a key. */
module StorageKeys {
  import opened Optional

  const RawPrefix: string := "raw-reports/"
  const RawSuffix: string := ".gz"
  const ParsedPrefix: string := "parsed-reports/"
  const ParsedSuffix: string := ".json"

  /** The key of report `id` in the namespace given by `prefix` and `suffix`. */
  function Key(prefix: string, id: string, suffix: string): (k: string)
    ensures IdOf(prefix, suffix, k) == Some(id)
  {
    var k := prefix + id + suffix;
    assert k[..|prefix|] == prefix && k[|prefix|..|k| - |suffix|] == id && k[|k| - |suffix|..] == suffix;
    k
  }

  /** The report id filed under `key` in the namespace, if `key` belongs to it. */
  function IdOf(prefix: string, suffix: string, key: string): Option<string> {
    if |key| >= |prefix| + |suffix| && key[..|prefix|] == prefix && key[|key| - |suffix|..] == suffix
    then Some(key[|prefix|..|key| - |suffix|])
    else None
  }

  /** `f"raw-reports/{report_id}.gz"` */
  function RawKey(id: string): (k: string)
    ensures IdOf(RawPrefix, RawSuffix, k) == Some(id)
  {
    Key(RawPrefix, id, RawSuffix)
  }

  /** `f"parsed-reports/{report_id}.json"` */
  function ParsedKey(id: string): (k: string)
    ensures IdOf(ParsedPrefix, ParsedSuffix, k) == Some(id)
  {
    Key(ParsedPrefix, id, ParsedSuffix)
  }

  /** `IdOf` inverts `Key`, in both directions. */
  lemma KeyRoundTrip(prefix: string, suffix: string, id: string, key: string)
    ensures IdOf(prefix, suffix, key) == Some(id) <==> key == Key(prefix, id, suffix)
  {
    if IdOf(prefix, suffix, key) == Some(id) {
      assert key == key[..|prefix|] + key[|prefix|..|key| - |suffix|] + key[|key| - |suffix|..];
    }
  }

  /** The raw key names exactly one report, and `IdOf` recovers it. */
  lemma RawKeyRoundTrip(id: string, key: string)
    ensures IdOf(RawPrefix, RawSuffix, key) == Some(id) <==> key == RawKey(id)
  {
    KeyRoundTrip(RawPrefix, RawSuffix, id, key);
  }

  /** The parsed key names exactly one report, and `IdOf` recovers it. */
  lemma ParsedKeyRoundTrip(id: string, key: string)
    ensures IdOf(ParsedPrefix, ParsedSuffix, key) == Some(id) <==> key == ParsedKey(id)
  {
    KeyRoundTrip(ParsedPrefix, ParsedSuffix, id, key);
  }

  /** Distinct reports never share a key, and a raw object never overwrites a parsed one. */
  lemma KeysSeparateReports(a: string, b: string)
    ensures RawKey(a) == RawKey(b) ==> a == b
    ensures ParsedKey(a) == ParsedKey(b) ==> a == b
    ensures RawKey(a) != ParsedKey(b)
  {
    RawKeyRoundTrip(a, RawKey(b));
    ParsedKeyRoundTrip(a, ParsedKey(b));
    assert RawKey(a)[0] == 'r' && ParsedKey(b)[0] == 'p';
  }
}
