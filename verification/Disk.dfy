/** The disk as iderw sees it: an array of blocks, each write of a dirty buffer
    replacing one block atomically. */
module Disk {
  import opened Blocks

  type Image = seq<Block>
  datatype Write = Write(bno: nat, data: Block)

  /** The disk after one write; iderw refuses a block past the end. */
  function Put(d: Image, w: Write): (r: Image)
    ensures |r| == |d|
  {
    if w.bno < |d| then d[w.bno := w.data] else d
  }

  /** The disk after the writes ws, oldest first. */
  function Apply(d: Image, ws: seq<Write>): (r: Image)
    ensures |r| == |d|
  {
    if ws == [] then d
    else Put(Apply(d, ws[..|ws|-1]), ws[|ws|-1])
  }

  lemma {:induction false} ApplyConcat(d: Image, a: seq<Write>, b: seq<Write>)
    ensures Apply(d, a + b) == Apply(Apply(d, a), b)
  {
    if b == [] {
      assert a + b == a;
    } else {
      assert (a + b)[..|a + b|-1] == a + b[..|b|-1];
      ApplyConcat(d, a, b[..|b|-1]);
    }
  }

  /** One more write. */
  lemma ApplyStep(d: Image, ws: seq<Write>, k: nat)
    requires 0 < k <= |ws|
    ensures Apply(d, ws[..k]) == Put(Apply(d, ws[..k-1]), ws[k-1])
  {
    assert ws[..k][..k-1] == ws[..k-1];
  }

  /** From disk d with history log to disk e with history log': exactly the
      writes ws have been issued. */
  ghost predicate Issued(d: Image, log: seq<Write>, ws: seq<Write>, e: Image, log': seq<Write>)
  {
    log' == log + ws && e == Apply(d, ws)
  }

  lemma IssuedNone(d: Image, log: seq<Write>)
    ensures Issued(d, log, [], d, log)
  {
  }

  lemma IssuedApply(d: Image, log: seq<Write>, ws: seq<Write>, e: Image, log': seq<Write>)
    requires Issued(d, log, ws, e, log')
    ensures e == Apply(d, ws)
  {
  }

  lemma IssuedNext(d: Image, log: seq<Write>, ws: seq<Write>, e: Image, log': seq<Write>, w: Write)
    requires Issued(d, log, ws, e, log')
    ensures Issued(d, log, ws + [w], Put(e, w), log' + [w])
  {
    assert (ws + [w])[..|ws|] == ws;
  }

  lemma IssuedThen(d: Image, log: seq<Write>, a: seq<Write>, e: Image, log': seq<Write>,
                   b: seq<Write>, f: Image, log'': seq<Write>)
    requires Issued(d, log, a, e, log') && Issued(e, log', b, f, log'')
    ensures Issued(d, log, a + b, f, log'')
  {
    ApplyConcat(d, a, b);
  }
}
