/** The bucket the reports are written to, as a map from key to stored object.
    A put overwrites whatever was stored under its key. */
module Storage {

  newtype byte = x: int | 0 <= x < 256

  /** What `store_raw_file` and `store_parsed_file` upload: the downloaded bytes,
      unmodified, or the serialized JSON text of the parsed report. */
  datatype Payload = RawReport(content: seq<byte>) | ParsedReport(text: string)

  datatype Put = Put(key: string, payload: Payload)

  type Bucket = map<string, Payload>

  function KeysOf(puts: seq<Put>): set<string> {
    set i | 0 <= i < |puts| :: puts[i].key
  }

  /** The bucket after performing `puts` in order. */
  function Apply(b: Bucket, puts: seq<Put>): (r: Bucket)
    ensures r.Keys == b.Keys + KeysOf(puts)
    ensures forall k :: k in b && k !in KeysOf(puts) ==> r[k] == b[k]
    ensures puts != [] ==> r[puts[|puts| - 1].key] == puts[|puts| - 1].payload
    decreases |puts|
  {
    if puts == [] then b
    else
      var r := Apply(b[puts[0].key := puts[0].payload], puts[1..]);
      assert KeysOf(puts) == {puts[0].key} + KeysOf(puts[1..]) by {
        forall k | k in KeysOf(puts) ensures k in {puts[0].key} + KeysOf(puts[1..]) {
          var i :| 0 <= i < |puts| && puts[i].key == k;
          if i > 0 { assert puts[1..][i - 1] == puts[i]; }
        }
      }
      r
  }

  /** Each put that no later put overwrites leaves its object under its key,
      whatever came before it. */
  lemma {:induction false} ApplyLastWins(b: Bucket, puts: seq<Put>, i: nat)
    requires i < |puts|
    requires forall j :: i < j < |puts| ==> puts[j].key != puts[i].key
    ensures puts[i].key in Apply(b, puts)
    ensures Apply(b, puts)[puts[i].key] == puts[i].payload
    decreases |puts|
  {
    var rest := puts[1..];
    if i == 0 {
      assert puts[0].key !in KeysOf(rest) by {
        forall j | 0 <= j < |rest|
          ensures rest[j].key != puts[0].key
        {
          assert rest[j] == puts[j + 1];
        }
      }
    } else {
      forall j | i - 1 < j < |rest|
        ensures rest[j].key != rest[i - 1].key
      {
        assert rest[j] == puts[j + 1];
      }
      ApplyLastWins(b[puts[0].key := puts[0].payload], rest, i - 1);
    }
  }

  lemma UpdateIsOverlay(b: Bucket, k: string, v: Payload)
    ensures b[k := v] == b + map[k := v]
  {
  }

  lemma OverlayAssociates(a: Bucket, b: Bucket, c: Bucket)
    ensures (a + b) + c == a + (b + c)
  {
  }

  /** The bucket after a sequence of puts is the old bucket overlaid with what
      the puts alone would produce. */
  lemma {:induction false} ApplyIsOverlay(b: Bucket, puts: seq<Put>)
    ensures Apply(b, puts) == b + Apply(map[], puts)
    decreases |puts|
  {
    if puts != [] {
      var single := map[puts[0].key := puts[0].payload];
      var rest := puts[1..];
      UpdateIsOverlay(b, puts[0].key, puts[0].payload);
      UpdateIsOverlay(map[], puts[0].key, puts[0].payload);
      calc {
        Apply(b, puts);
        Apply(b + single, rest);
        { ApplyIsOverlay(b + single, rest); }
        (b + single) + Apply(map[], rest);
        { OverlayAssociates(b, single, Apply(map[], rest)); }
        b + (single + Apply(map[], rest));
        { ApplyIsOverlay(single, rest); }
        b + Apply(single, rest);
        b + Apply(map[], puts);
      }
    }
  }

  /** Repeating the same puts leaves the bucket as it was after the first time. */
  lemma ApplyIdempotent(b: Bucket, puts: seq<Put>)
    ensures Apply(Apply(b, puts), puts) == Apply(b, puts)
  {
    ApplyIsOverlay(b, puts);
    ApplyIsOverlay(Apply(b, puts), puts);
  }
}
