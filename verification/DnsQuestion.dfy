/** The question section of a DNS request, written in place (section 4.1.2 of RFC 1035). */
module DnsQuestion {
  import opened Domain

  const DOT: Byte := 46

  // ----- names and their wire form --------------------------------------------------------

  /** Labels joined into a dot-terminated name. */
  function Name(labels: seq<seq<Byte>>): seq<Byte> {
    if labels == [] then [] else labels[0] + [DOT] + Name(labels[1..])
  }

  /** Each label behind a byte with its length, which is a char and keeps 8 bits only. */
  function Labels(labels: seq<seq<Byte>>): seq<Byte> {
    if labels == [] then [] else [|labels[0]| % 0x100] + labels[0] + Labels(labels[1..])
  }

  /** The name, type A and class IN. */
  function Question(labels: seq<seq<Byte>>): seq<Byte> {
    Labels(labels) + [0] + [0, 1] + [0, 1]
  }

  predicate Plain(labels: seq<seq<Byte>>) {
    forall k | 0 <= k < |labels| :: DOT !in labels[k] && 0 !in labels[k]
  }

  // ----- decoding ---------------------------------------------------------------------------

  datatype Decoded = Malformed | Decoded(labels: seq<seq<Byte>>, qtype: int, qclass: int)

  /** The labels up to the root label, and what follows; lengths above 63 are not labels. */
  function DecodeName(bytes: seq<Byte>): (r: (bool, seq<seq<Byte>>, seq<Byte>))
    ensures r.0 ==> forall l | l in r.1 :: 1 <= |l| <= 63
    decreases |bytes|
  {
    if bytes == [] then (false, [], [])
    else if bytes[0] == 0 then (true, [], bytes[1..])
    else if bytes[0] > 63 || 1 + bytes[0] > |bytes| then (false, [], [])
    else
      var rest := DecodeName(bytes[1 + bytes[0]..]);
      (rest.0, [bytes[1..1 + bytes[0]]] + rest.1, rest.2)
  }

  function U16(hi: int, lo: int): int {
    0x100 * hi + lo
  }

  /** A question section and nothing else. */
  function Decode(bytes: seq<Byte>): Decoded {
    var (ok, labels, rest) := DecodeName(bytes);
    if ok && |rest| == 4 then Decoded(labels, U16(rest[0], rest[1]), U16(rest[2], rest[3]))
    else Malformed
  }

  lemma DecodeOne(l: seq<Byte>, rest: seq<Byte>)
    requires 1 <= |l| <= 63
    ensures DecodeName([|l|] + l + rest)
         == (DecodeName(rest).0, [l] + DecodeName(rest).1, DecodeName(rest).2)
  {
    var bytes: seq<Byte> := [|l|] + l + rest;
    assert bytes[0] == |l| && bytes[1..1 + |l|] == l && bytes[1 + |l|..] == rest;
  }

  lemma LabelsFirst(l: seq<Byte>, more: seq<seq<Byte>>, tail: seq<Byte>)
    requires |l| <= 63
    ensures Labels([l] + more) + tail == [|l|] + l + (Labels(more) + tail)
  {
    assert ([l] + more)[1..] == more;
  }

  lemma {:induction false} DecodeLabels(labels: seq<seq<Byte>>, tail: seq<Byte>)
    requires forall l | l in labels :: 1 <= |l| <= 63
    ensures DecodeName(Labels(labels) + ([0] + tail)) == (true, labels, tail)
  {
    hide DecodeName, Labels;
    if labels == [] {
      LabelsNone();
      assert [] + ([0] + tail) == [0] + tail;
      DecodeRoot(tail);
    } else {
      var l, more := labels[0], labels[1..];
      assert l in labels && forall x | x in more :: x in labels;
      assert [l] + more == labels;
      DecodeLabels(more, tail);
      LabelsFirst(l, more, [0] + tail);
      DecodeOne(l, Labels(more) + ([0] + tail));
    }
  }

  lemma LabelsNone()
    ensures Labels([]) == []
  {
  }

  lemma DecodeRoot(tail: seq<Byte>)
    ensures DecodeName([0] + tail) == (true, [], tail)
  {
    var bytes: seq<Byte> := [0] + tail;
    assert bytes[1..] == tail;
  }

  lemma DecodeQuestion(labels: seq<seq<Byte>>)
    requires forall l | l in labels :: 1 <= |l| <= 63
    ensures Decode(Question(labels)) == Decoded(labels, 1, 1)
  {
    hide DecodeName, Labels;
    var tail: seq<Byte> := [0, 1] + [0, 1];
    DecodeLabels(labels, tail);
    assert Question(labels) == Labels(labels) + ([0] + tail);
  }

  lemma DecodedLabels(bytes: seq<Byte>, labels: seq<seq<Byte>>, qtype: int, qclass: int)
    requires Decode(bytes) == Decoded(labels, qtype, qclass)
    ensures forall l | l in labels :: 1 <= |l| <= 63
  {
    hide DecodeName;
  }

  /** For every list of labels: the question decodes to the same labels, type A and class IN,
      exactly when every label has 1 to 63 bytes.  The bare root "." is one empty label. */
  lemma RoundTrip(labels: seq<seq<Byte>>)
    ensures Decode(Question(labels)) == Decoded(labels, 1, 1) <==> forall l | l in labels :: 1 <= |l| <= 63
  {
    hide Decode, Question;
    if forall l | l in labels :: 1 <= |l| <= 63 {
      DecodeQuestion(labels);
    }
    if Decode(Question(labels)) == Decoded(labels, 1, 1) {
      DecodedLabels(Question(labels), labels, 1, 1);
    }
  }

  /** The default query is the bare root, and its question is malformed: it is read as the root
      name followed by one byte too many. */
  lemma RootIsMalformed()
    ensures Name([[]]) == [46]
    ensures Question([[]]) == [0, 0, 0, 1, 0, 1]
    ensures Decode(Question([[]])) == Malformed
  {
    assert Name([[]]) == [] + [DOT] + Name([]);
    assert Labels([[]]) == [0] + [] + Labels([]);
    assert Question([[]]) == [0, 0, 0, 1, 0, 1];
    assert DecodeName([0, 0, 0, 1, 0, 1]) == (true, [], [0, 0, 1, 0, 1]);
  }

  // ----- the wire form, byte by byte -----------------------------------------------------------

  /** The distance from position `i` to the next dot, or to the end. */
  function ToDot(q: seq<Byte>, i: nat): (n: nat)
    requires i <= |q|
    ensures i + n <= |q| && (forall k | i <= k < i + n :: q[k] != DOT)
    ensures i + n == |q| || q[i + n] == DOT
    decreases |q| - i
  {
    if i == |q| || q[i] == DOT then 0 else 1 + ToDot(q, i + 1)
  }

  /** Byte `j` of the encoded name: a length where a label starts, else the name's own byte. */
  function At(q: seq<Byte>, j: nat): Byte
    requires j <= |q|
  {
    if j == 0 || q[j - 1] == DOT then ToDot(q, j) % 0x100 else q[j - 1]
  }

  function Encoded(q: seq<Byte>): seq<Byte> {
    seq(|q| + 1, j requires 0 <= j < |q| + 1 => At(q, j))
  }

  lemma {:induction false} ToDotIs(q: seq<Byte>, i: nat, n: nat)
    requires i + n <= |q| && (forall k | i <= k < i + n :: q[k] != DOT) && (i + n == |q| || q[i + n] == DOT)
    ensures ToDot(q, i) == n
    decreases n
  {
    if n > 0 {
      ToDotIs(q, i + 1, n - 1);
    }
  }

  lemma {:induction false} ToDotShift(front: seq<Byte>, rest: seq<Byte>, j: nat)
    requires j <= |rest|
    ensures ToDot(front + rest, |front| + j) == ToDot(rest, j)
    decreases |rest| - j
  {
    if j < |rest| {
      assert (front + rest)[|front| + j] == rest[j];
      if rest[j] != DOT {
        ToDotShift(front, rest, j + 1);
      }
    }
  }

  /** Behind a first label the encoding goes on as for the rest of the name. */
  lemma AtShift(l: seq<Byte>, rest: seq<Byte>, j: nat)
    requires j <= |rest|
    ensures At(l + [DOT] + rest, |l| + 1 + j) == At(rest, j)
  {
    ToDotShift(l + [DOT], rest, j);
    if j > 0 {
      assert (l + [DOT] + rest)[|l| + 1 + (j - 1)] == rest[j - 1];
    }
  }

  lemma AtFirst(l: seq<Byte>, rest: seq<Byte>, j: nat)
    requires j <= |l| && DOT !in l
    ensures At(l + [DOT] + rest, j) == if j == 0 then |l| % 0x100 else l[j - 1]
  {
    var q := l + [DOT] + rest;
    assert forall k | 0 <= k < |l| :: q[k] == l[k] && l[k] in l;
    ToDotIs(q, 0, |l|);
  }

  /** Byte by byte and label by label are the same. */
  lemma {:induction false} EncodedLabels(labels: seq<seq<Byte>>)
    requires Plain(labels)
    ensures Encoded(Name(labels)) == Labels(labels) + [0]
  {
    hide At;
    if labels == [] {
      EncodedNone();
    } else {
      var l, rest := labels[0], Name(labels[1..]);
      EncodedLabels(labels[1..]);
      var q := l + [DOT] + rest;
      forall j | 0 <= j <= |l|
        ensures Encoded(q)[j] == ([|l| % 0x100] + l + Encoded(rest))[j]
      {
        AtFirst(l, rest, j);
      }
      forall j | |l| < j <= |q|
        ensures Encoded(q)[j] == Encoded(rest)[j - |l| - 1]
      {
        AtShift(l, rest, j - |l| - 1);
      }
      assert Encoded(q) == [|l| % 0x100] + l + Encoded(rest);
    }
  }

  lemma EncodedNone()
    ensures Encoded([]) == [0]
  {
  }

  /** The labels of a name, cut at its dots. */
  function Split(q: seq<Byte>): seq<seq<Byte>>
    decreases |q|
  {
    if q == [] then []
    else
      var n := ToDot(q, 0);
      [q[..n]] + if n < |q| then Split(q[n + 1..]) else []
  }

  /** Every dot-terminated name without zero bytes is its labels joined. */
  lemma {:induction false} SplitName(q: seq<Byte>)
    requires q == [] || q[|q| - 1] == DOT
    requires 0 !in q
    ensures Name(Split(q)) == q && Plain(Split(q))
    decreases |q|
  {
    hide Plain;
    if q == [] {
      PlainMore([], []);
    } else {
      var n := ToDot(q, 0);
      assert n < |q|;
      var l, rest := q[..n], q[n + 1..];
      SplitName(rest);
      assert q == l + [DOT] + rest;
      assert ([l] + Split(rest))[1..] == Split(rest);
      PlainMore(l, Split(rest));
    }
  }

  lemma PlainMore(l: seq<Byte>, labels: seq<seq<Byte>>)
    ensures Plain([])
    ensures Plain(labels) && 0 !in l && DOT !in l ==> Plain([l] + labels)
  {
  }

  // ----- the loop -------------------------------------------------------------------------------

  /** build_dns_question: for every dot-terminated name that fits, starting from a cleared buffer,
      the first bytes become the question and nothing behind them is touched. */
  method BuildDnsQuestion(buf: array<Byte>, query: seq<Byte>) returns (length: nat)
    requires query != [] && query[|query| - 1] == DOT && 0 !in query
    requires |query| + 5 <= buf.Length
    requires forall k | 0 <= k < |query| + 5 :: buf[k] == 0
    modifies buf
    ensures length == |query| + 5
    ensures buf[..length] == Question(Split(query))
    ensures buf[length..] == old(buf[length..])
  {
    hide At, Name, Labels, Question, Encoded, Plain, Split, Decode;
    var origlen := |query|;
    ghost var labels := Split(query);
    SplitName(query);
    EncodedLabels(labels);
    CopyBehindFirst(buf, query);
    ReplaceDots(buf, query);
    assert buf[origlen + 1] == 0 && buf[origlen + 3] == 0;
    buf[origlen + 2] := 1;
    buf[origlen + 4] := 1;
    length := origlen + 5;
    assert buf[origlen + 1..length] == [0, 1, 0, 1];
    assert buf[..length][origlen + 1..] == [0, 1, 0, 1];
    PutTogether(buf[..length], query, labels);
  }

  lemma PutTogether(bytes: seq<Byte>, query: seq<Byte>, labels: seq<seq<Byte>>)
    requires |bytes| == |query| + 5 && Encoded(query) == Labels(labels) + [0]
    requires forall j | 0 <= j <= |query| :: bytes[j] == At(query, j)
    requires bytes[|query| + 1..] == [0, 1, 0, 1]
    ensures bytes == Question(labels)
  {
    assert bytes[..|query| + 1] == Encoded(query);
    assert bytes == bytes[..|query| + 1] + bytes[|query| + 1..];
  }

  /** strcpy to the second byte, with the terminating zero. */
  method CopyBehindFirst(buf: array<Byte>, query: seq<Byte>)
    requires |query| + 2 <= buf.Length
    modifies buf
    ensures forall k | 0 <= k < |query| :: buf[k + 1] == query[k]
    ensures buf[0] == old(buf[0]) && buf[|query| + 1] == 0
    ensures forall k | |query| + 2 <= k < buf.Length :: buf[k] == old(buf[k])
  {
    for k := 0 to |query|
      invariant forall j | 0 <= j < k :: buf[j + 1] == query[j]
      invariant buf[0] == old(buf[0])
      invariant forall j | k < j < buf.Length :: buf[j] == old(buf[j])
    {
      buf[k + 1] := query[k];
    }
    buf[|query| + 1] := 0;
  }

  /** The loop that writes lengths over the dots.  A length byte that happens to equal the code
      of the dot is written behind the reading position and never read again. */
  method ReplaceDots(buf: array<Byte>, query: seq<Byte>)
    requires |query| + 2 <= buf.Length
    requires forall k | 0 <= k < |query| :: buf[k + 1] == query[k]
    modifies buf
    ensures forall j | 0 <= j <= |query| :: buf[j] == At(query, j)
    ensures forall j | |query| < j < buf.Length :: buf[j] == old(buf[j])
  {
    var origlen := |query|;
    var labelStart, labelLen := 0, 0;
    for i := 1 to origlen + 2
      invariant 0 <= labelStart < i && labelLen == i - 1 - labelStart
      invariant i == origlen + 2 ==> labelStart == origlen + 1
      invariant labelStart == 0 || labelStart == origlen + 1 || query[labelStart - 1] == DOT
      invariant forall k | labelStart <= k < i - 1 :: k < origlen && query[k] != DOT
      invariant forall j | 0 <= j < labelStart :: buf[j] == At(query, j)
      invariant forall j | labelStart <= j < buf.Length :: buf[j] == old(buf[j])
    {
      if i == origlen + 1 || buf[i] == DOT {
        buf[labelStart] := labelLen % 0x100;
        ToDotIs(query, labelStart, labelLen);
        labelLen := 0;
        labelStart := i;
      } else {
        labelLen := labelLen + 1;
      }
    }
  }
}
