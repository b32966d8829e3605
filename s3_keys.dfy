/**
 * What both import handlers derive from an S3 notification record: the object's file type
 * (the text after the key's last dot) and its `s3://` URI, which serves as the document id.
 */
module S3Keys {
  import opened Strings

  /** One S3 notification record: the bucket and the URL-quoted object key. */
  datatype S3Record = S3Record(bucket: string, rawKey: string)

  /** `object_key.split(".")[-1]`: the text after the last dot, the whole key without one. */
  function FileType(key: string): string {
    LastSegment(key, '.')
  }

  /** `f"s3://{bucket}/{key}"` */
  function ObjectUri(bucket: string, key: string): string {
    "s3://" + bucket + "/" + key
  }

  /** The file type never holds a dot and is a suffix of the key; it is the key when there is no dot. */
  lemma FileTypeShape(key: string)
    ensures '.' !in FileType(key) && EndsWith(key, FileType(key))
    ensures FileType(key) == key <==> '.' !in key
    ensures |FileType(key)| < |key| ==> key[|key| - |FileType(key)| - 1] == '.'
  {
    LastSegmentIsSuffix(key, '.');
  }

  /** The object URI names the bucket and the key, and different objects get different URIs. */
  lemma ObjectUriInjective(b1: string, k1: string, b2: string, k2: string)
    requires '/' !in b1 && '/' !in b2
    ensures StartsWith(ObjectUri(b1, k1), "s3://")
    ensures ObjectUri(b1, k1) == ObjectUri(b2, k2) <==> b1 == b2 && k1 == k2
  {
    var u1, u2 := ObjectUri(b1, k1), ObjectUri(b2, k2);
    var scheme := "s3://";
    assert u1 == scheme + (b1 + "/" + k1) && u2 == scheme + (b2 + "/" + k2);
    assert u1[..|scheme|] == scheme;
    if u1 == u2 {
      assert b1 + "/" + k1 == u1[|scheme|..] && b2 + "/" + k2 == u2[|scheme|..];
      SlashPairInjective(b1, k1, b2, k2);
    }
  }

  /** `bucket + "/" + key` with a slash-free bucket determines the bucket and the key. */
  lemma SlashPairInjective(b1: string, k1: string, b2: string, k2: string)
    requires '/' !in b1 && '/' !in b2
    requires b1 + "/" + k1 == b2 + "/" + k2
    ensures b1 == b2 && k1 == k2
  {
    var t1, t2 := b1 + "/" + k1, b2 + "/" + k2;
    FirstSlash(b1, k1);
    FirstSlash(b2, k2);
    assert |b1| == |b2|;
    assert b1 == t1[..|b1|] && b2 == t2[..|b2|];
    assert k1 == t1[|b1| + 1..] && k2 == t2[|b2| + 1..];
  }

  /** In `bucket + "/" + key` with a bucket free of slashes, the first slash follows the bucket. */
  lemma FirstSlash(b: string, k: string)
    requires '/' !in b
    ensures (b + "/" + k)[|b|] == '/'
    ensures forall i :: 0 <= i < |b| ==> (b + "/" + k)[i] != '/'
  {
    forall i | 0 <= i < |b| ensures (b + "/" + k)[i] != '/' {
      assert (b + "/" + k)[i] == b[i];
    }
  }
}
