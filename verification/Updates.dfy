/** Binary updates of files, as the daemon's queues hold them, and the limits of those queues. */
module Updates {
  import opened Bytes

  const MAX_BUFFERED_UPDATES := 1000
  const MAX_BUFFERED_BYTES := 50 * 1024 * 1024

  datatype FileUpdate = FileUpdate(path: string, update: seq<byte>)

  /** The bytes of all updates together. */
  function Weight(s: seq<FileUpdate>): nat {
    if s == [] then 0 else |s[0].update| + Weight(s[1..])
  }

  lemma {:induction false} WeightAppend(a: seq<FileUpdate>, b: seq<FileUpdate>)
    ensures Weight(a + b) == Weight(a) + Weight(b)
  {
    if a == [] {
      assert a + b == b;
    } else {
      assert (a + b)[1..] == a[1..] + b;
      WeightAppend(a[1..], b);
    }
  }

  lemma WeightOfOne(u: FileUpdate)
    ensures Weight([u]) == |u.update|
  {
  }
}
