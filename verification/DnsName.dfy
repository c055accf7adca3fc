/** Building a DNS question and reading names back, compression included
    (sections 4.1.2 and 4.1.4 of RFC 1035). */
module DnsName {
  newtype byte = b: int | 0 <= b < 256

  // ---- text: labels and dots ----------------------------------------------------------------

  function StripTrailingDots(name: string): string {
    if name != [] && name[|name| - 1] == '.' then StripTrailingDots(name[..|name| - 1]) else name
  }

  /** The pieces between the dots; there is always at least one. */
  function Split(name: string): (labels: seq<string>)
    ensures labels != []
  {
    if name == [] then [""]
    else
      var rest := Split(name[1..]);
      if name[0] == '.' then [""] + rest else [[name[0]] + rest[0]] + rest[1..]
  }

  function Join(labels: seq<string>): string {
    if labels == [] then ""
    else if |labels| == 1 then labels[0]
    else labels[0] + "." + Join(labels[1..])
  }

  lemma {:induction false} JoinUndoesSplit(name: string)
    ensures Join(Split(name)) == name
    decreases |name|
  {
    if name != [] {
      JoinUndoesSplit(name[1..]);
      var rest := Split(name[1..]);
      var labels := Split(name);
      if name[0] == '.' {
        assert labels[1..] == rest;
        assert "" + "." + name[1..] == name;
      } else {
        assert labels[1..] == rest[1..] && labels[0] == [name[0]] + rest[0];
        assert [name[0]] + Join(rest) == Join(labels) by {
          if |rest| > 1 {
            assert [name[0]] + (rest[0] + "." + Join(rest[1..])) == [name[0]] + rest[0] + "." + Join(rest[1..]);
          }
        }
      }
    }
  }

  // ---- encoding -----------------------------------------------------------------------------

  datatype EncodeError = LabelTooLong | NotAscii | NotAType
  datatype Encoded = Bytes(bytes: seq<byte>) | Refused(error: EncodeError)

  predicate IsAscii(text: string) {
    forall i :: 0 <= i < |text| ==> text[i] as int < 128
  }

  function AsciiBytes(text: string): (bytes: seq<byte>)
    requires IsAscii(text)
    ensures |bytes| == |text|
  {
    if text == "" then [] else [text[0] as int as byte] + AsciiBytes(text[1..])
  }

  /** A label is its length byte and its characters; only what a byte cannot hold is refused. */
  function EncodeLabel(piece: string): Encoded {
    if |piece| > 255 then Refused(LabelTooLong)
    else if !IsAscii(piece) then Refused(NotAscii)
    else Bytes([|piece| as byte] + AsciiBytes(piece))
  }

  function Concat(first: Encoded, rest: Encoded): Encoded {
    if first.Refused? then first
    else if rest.Refused? then rest
    else Bytes(first.bytes + rest.bytes)
  }

  function EncodeLabels(labels: seq<string>): Encoded {
    if labels == [] then Bytes([])
    else Concat(EncodeLabel(labels[0]), EncodeLabels(labels[1..]))
  }

  function EncodeName(name: string): Encoded {
    Concat(EncodeLabels(Split(StripTrailingDots(name))), Bytes([0]))
  }

  const HEADER: seq<byte> := [0, 0, 0, 0, 0, 1, 0, 0, 0, 0, 0, 0]

  function Query(name: string, qtype: int): Encoded {
    if EncodeName(name).Refused? then EncodeName(name)
    else if !(0 <= qtype < 0x1_0000) then Refused(NotAType)
    else Bytes(HEADER + EncodeName(name).bytes + [(qtype / 256) as byte, (qtype % 256) as byte, 0, 1])
  }

  lemma ConcatIsAssociative(a: Encoded, b: Encoded, c: Encoded)
    ensures Concat(Concat(a, b), c) == Concat(a, Concat(b, c))
  {
    if a.Bytes? && b.Bytes? && c.Bytes? {
      assert a.bytes + b.bytes + c.bytes == a.bytes + (b.bytes + c.bytes);
    }
  }

  lemma ConcatNothing(a: Encoded)
    ensures Concat(a, Bytes([])) == a && Concat(Bytes([]), a) == a
  {
    if a.Bytes? {
      assert a.bytes + [] == a.bytes && [] + a.bytes == a.bytes;
    }
  }

  lemma {:induction false} EncodeSplit(labels: seq<string>, n: nat)
    requires n <= |labels|
    ensures EncodeLabels(labels) == Concat(EncodeLabels(labels[..n]), EncodeLabels(labels[n..]))
    decreases n
  {
    if n == 0 {
      ConcatNothing(EncodeLabels(labels));
      assert labels[0..] == labels && labels[..0] == [];
    } else {
      EncodeSplit(labels[1..], n - 1);
      assert labels[..n][1..] == labels[1..][..n - 1] && labels[1..][n - 1..] == labels[n..];
      ConcatIsAssociative(EncodeLabel(labels[0]), EncodeLabels(labels[1..][..n - 1]), EncodeLabels(labels[n..]));
    }
  }

  lemma EncodeOne(piece: string)
    ensures EncodeLabels([piece]) == EncodeLabel(piece)
  {
    ConcatNothing(EncodeLabel(piece));
    assert [piece][1..] == [];
  }

  method BuildDnsQuery(name: string, qtype: int) returns (packet: Encoded)
    ensures packet == Query(name, qtype)
  {
    var labels := Split(StripTrailingDots(name));
    var qname: seq<byte> := [];
    assert labels[..0] == [];
    for n := 0 to |labels|
      invariant EncodeLabels(labels[..n]) == Bytes(qname)
    {
      var one := EncodeLabel(labels[n]);
      EncodeSplit(labels[..n + 1], n);
      assert labels[..n + 1][..n] == labels[..n] && labels[..n + 1][n..] == [labels[n]];
      EncodeOne(labels[n]);
      if one.Refused? {
        EncodeSplit(labels, n + 1);
        return one;
      }
      qname := qname + one.bytes;
    }
    assert labels[..|labels|] == labels;
    qname := qname + [0];
    if !(0 <= qtype < 0x1_0000) {
      return Refused(NotAType);
    }
    return Bytes(HEADER + qname + [(qtype / 256) as byte, (qtype % 256) as byte, 0, 1]);
  }

  // ---- the query in full ----------------------------------------------------------------------------

  predicate AllDots(text: string) {
    forall i :: 0 <= i < |text| ==> text[i] == '.'
  }

  /** The labels of a name: no dots in them, dots between them, and any dots after the last, which is
      empty only if it is the only one. */
  ghost predicate AreLabelsOf(labels: seq<string>, name: string) {
    && labels != [] && (forall i :: 0 <= i < |labels| ==> '.' !in labels[i])
    && Join(labels) <= name && AllDots(name[|Join(labels)|..])
    && (labels == [""] || labels[|labels| - 1] != "")
  }

  lemma {:induction false} StripsTheDots(name: string)
    ensures var s := StripTrailingDots(name);
            s <= name && AllDots(name[|s|..]) && (s == "" || s[|s| - 1] != '.')
    decreases |name|
  {
    if name != [] && name[|name| - 1] == '.' {
      var shorter := name[..|name| - 1];
      StripsTheDots(shorter);
      var n := |StripTrailingDots(name)|;
      assert forall i :: n <= i < |shorter| ==> shorter[i] == shorter[n..][i - n];
      assert forall i :: 0 <= i < |name| - n ==> name[n..][i] == '.';
    } else {
      assert name[|name|..] == "";
    }
  }

  lemma {:induction false} SplitHasNoDots(name: string)
    ensures forall i :: 0 <= i < |Split(name)| ==> '.' !in Split(name)[i]
    decreases |name|
  {
    if name != [] {
      SplitHasNoDots(name[1..]);
    }
  }

  lemma {:induction false} LastPieceIsNotEmpty(name: string)
    requires name != "" && name[|name| - 1] != '.'
    ensures Split(name)[|Split(name)| - 1] != ""
    decreases |name|
  {
    if |name| > 1 {
      LastPieceIsNotEmpty(name[1..]);
    } else {
      assert name[1..] == "";
    }
  }

  lemma PiecesAreTheLabels(name: string)
    ensures AreLabelsOf(Split(StripTrailingDots(name)), name)
  {
    var s := StripTrailingDots(name);
    StripsTheDots(name);
    JoinUndoesSplit(s);
    SplitHasNoDots(s);
    if s != "" {
      LastPieceIsNotEmpty(s);
    }
  }

  /** A byte for the length of each label, and one for each of its characters. */
  function WireOf(labels: seq<string>): seq<byte>
    requires forall i :: 0 <= i < |labels| ==> Fits(labels[i])
  {
    if labels == [] then []
    else
      var l := labels[0];
      assert Fits(l);
      [|l| as byte] + seq(|l|, i requires 0 <= i < |l| => l[i] as int as byte) + WireOf(labels[1..])
  }

  predicate Fits(piece: string) {
    |piece| <= 255 && forall i :: 0 <= i < |piece| ==> piece[i] <= '\U{7F}'
  }

  lemma {:induction false} AsciiIsItsBytes(text: string)
    requires IsAscii(text)
    ensures AsciiBytes(text) == seq(|text|, i requires 0 <= i < |text| => text[i] as int as byte)
    decreases |text|
  {
    if text != "" {
      AsciiIsItsBytes(text[1..]);
    }
  }

  lemma LabelFits(piece: string)
    ensures EncodeLabel(piece) ==
              if |piece| > 255 then Refused(LabelTooLong)
              else if !Fits(piece) then Refused(NotAscii)
              else Bytes([|piece| as byte] + seq(|piece|, i requires 0 <= i < |piece| => piece[i] as int as byte))
  {
    if IsAscii(piece) {
      AsciiIsItsBytes(piece);
    }
  }

  lemma {:induction false} LabelsOnTheWire(labels: seq<string>)
    ensures (forall i :: 0 <= i < |labels| ==> Fits(labels[i])) ==> EncodeLabels(labels) == Bytes(WireOf(labels))
    ensures forall i :: 0 <= i < |labels| && !Fits(labels[i]) && (forall j :: 0 <= j < i ==> Fits(labels[j])) ==>
              EncodeLabels(labels) == Refused(if |labels[i]| > 255 then LabelTooLong else NotAscii)
    decreases |labels|
  {
    if labels != [] {
      LabelFits(labels[0]);
      LabelsOnTheWire(labels[1..]);
      assert forall i :: 0 < i < |labels| ==> labels[1..][i - 1] == labels[i];
    }
  }

  /** Every query: a fixed header of one question, the labels of the name, each with its length, a zero,
      the type and the Internet class. It is refused only for the first label that is longer than a byte
      can say or not ASCII, and then for a type of more than two bytes. */
  lemma QueryInFull(name: string, qtype: int)
    ensures var labels := Split(StripTrailingDots(name));
            && AreLabelsOf(labels, name)
            && (forall i :: 0 <= i < |labels| && !Fits(labels[i]) && (forall j :: 0 <= j < i ==> Fits(labels[j])) ==>
                  Query(name, qtype) == Refused(if |labels[i]| > 255 then LabelTooLong else NotAscii))
            && ((forall i :: 0 <= i < |labels| ==> Fits(labels[i])) ==>
                  Query(name, qtype) ==
                    if 0 <= qtype <= 65535
                    then Bytes([0, 0, 0, 0, 0, 1, 0, 0, 0, 0, 0, 0] + (WireOf(labels) + [0])
                               + [(qtype / 256) as byte, (qtype % 256) as byte, 0, 1])
                    else Refused(NotAType))
  {
    PiecesAreTheLabels(name);
    LabelsOnTheWire(Split(StripTrailingDots(name)));
  }

  // ---- decoding -----------------------------------------------------------------------------

  const MAX_JUMPS := 20

  /** Bytes outside ASCII read as the replacement character. */
  function AsciiChar(b: byte): char {
    if b < 128 then b as char else '\U{FFFD}'
  }

  /** At most `length` bytes read as text, fewer where the data ends. */
  function TextAt(data: seq<byte>, from: nat, length: nat): string
    decreases length
  {
    if length == 0 || from >= |data| then ""
    else [AsciiChar(data[from])] + TextAt(data, from + 1, length - 1)
  }

  function LabelAt(data: seq<byte>, offset: nat): string
    requires offset < |data|
  {
    TextAt(data, offset + 1, data[offset] as nat)
  }

  function AfterLabel(data: seq<byte>, offset: nat): nat
    requires offset < |data|
  {
    offset + 1 + data[offset] as nat
  }

  function PointerAt(data: seq<byte>, offset: nat): nat
    requires offset + 1 < |data| && data[offset] >= 192
  {
    (data[offset] as int - 192) * 256 + data[offset + 1] as int
  }

  datatype Walked = Walked(labels: seq<string>, next: nat) | CutPointer

  function Prepend(labels: seq<string>, rest: Walked): Walked {
    if rest.CutPointer? then rest else Walked(labels + rest.labels, rest.next)
  }

  lemma PrependTwice(a: seq<string>, b: seq<string>, rest: Walked)
    ensures Prepend(a, Prepend(b, rest)) == Prepend(a + b, rest)
  {
    if rest.Walked? {
      assert a + (b + rest.labels) == a + b + rest.labels;
    }
  }

  lemma PrependNothing(rest: Walked)
    ensures Prepend([], rest) == rest
  {
    if rest.Walked? {
      assert [] + rest.labels == rest.labels;
    }
  }

  /** The labels of the name at `offset`, and the offset just past the name there. A pointer
      ends the name in place; what it points to only supplies more labels. */
  function Walk(data: seq<byte>, offset: nat, jumps: nat): Walked
    requires jumps <= MAX_JUMPS
    decreases MAX_JUMPS - jumps, |data| - offset
  {
    if offset >= |data| then Walked([], offset)
    else if data[offset] >= 192 then
      if offset + 1 >= |data| then CutPointer
      else if jumps == MAX_JUMPS then Walked([], offset + 2)
      else ResumeAt(offset + 2, Walk(data, PointerAt(data, offset), jumps + 1))
    else if data[offset] == 0 then Walked([], offset + 1)
    else Prepend([LabelAt(data, offset)], Walk(data, AfterLabel(data, offset), jumps))
  }

  function ResumeAt(next: nat, w: Walked): Walked {
    if w.CutPointer? then w else w.(next := next)
  }

  datatype Decoded = Decoded(name: string, next: nat) | Malformed

  function Read(w: Walked): Decoded {
    if w.CutPointer? then Malformed else Decoded(Join(w.labels), w.next)
  }

  function DecodeName(data: seq<byte>, offset: nat): Decoded {
    Read(Walk(data, offset, 0))
  }

  /** What the loop has still to return: the labels read so far go in front, and the place to
      resume is fixed once a pointer has been followed. */
  function Outstanding(labels: seq<string>, jumped: bool, resume: nat, rest: Walked): Walked {
    if jumped then ResumeAt(resume, Prepend(labels, rest)) else Prepend(labels, rest)
  }

  lemma ReadsOneLabel(data: seq<byte>, offset: nat, jumps: nat, labels: seq<string>, jumped: bool, resume: nat)
    requires jumps <= MAX_JUMPS && offset < |data| && 0 < data[offset] < 192
    ensures Outstanding(labels, jumped, resume, Walk(data, offset, jumps))
         == Outstanding(labels + [LabelAt(data, offset)], jumped, resume, Walk(data, AfterLabel(data, offset), jumps))
  {
    PrependTwice(labels, [LabelAt(data, offset)], Walk(data, AfterLabel(data, offset), jumps));
  }

  lemma FollowsOnePointer(data: seq<byte>, offset: nat, jumps: nat, labels: seq<string>, jumped: bool, resume: nat)
    requires jumps < MAX_JUMPS && offset + 1 < |data| && data[offset] >= 192
    ensures Outstanding(labels, jumped, resume, Walk(data, offset, jumps))
         == Outstanding(labels, true, if jumped then resume else offset + 2,
                        Walk(data, PointerAt(data, offset), jumps + 1))
  {
  }

  lemma StopsHere(labels: seq<string>, jumped: bool, resume: nat, next: nat)
    ensures Read(Outstanding(labels, jumped, resume, Walked([], next)))
         == Decoded(Join(labels), if jumped then resume else next)
  {
    assert labels + [] == labels;
  }

  method ParseDnsName(data: seq<byte>, start: nat) returns (name: Decoded)
    ensures name == DecodeName(data, start)
  {
    var labels: seq<string> := [];
    var offset, originalOffset, jumps := start, start, 0;
    var jumped := false;
    PrependNothing(Walk(data, start, 0));
    while true
      invariant 0 <= offset && 0 <= originalOffset && 0 <= jumps <= MAX_JUMPS
      invariant Outstanding(labels, jumped, originalOffset, Walk(data, offset, jumps)) == Walk(data, start, 0)
      decreases MAX_JUMPS - jumps, |data| - offset
    {
      if offset >= |data| {
        StopsHere(labels, jumped, originalOffset, offset);
        break;
      }
      var length := data[offset];
      if length >= 192 {
        if offset + 1 >= |data| {
          return Malformed;
        }
        if jumps + 1 > MAX_JUMPS {
          StopsHere(labels, jumped, originalOffset, offset + 2);
          if !jumped {
            originalOffset := offset + 2;
          }
          jumped := true;
          break;
        }
        FollowsOnePointer(data, offset, jumps, labels, jumped, originalOffset);
        if !jumped {
          originalOffset := offset + 2;
        }
        offset, jumped, jumps := PointerAt(data, offset), true, jumps + 1;
      } else if length == 0 {
        StopsHere(labels, jumped, originalOffset, offset + 1);
        offset := offset + 1;
        break;
      } else {
        ReadsOneLabel(data, offset, jumps, labels, jumped, originalOffset);
        labels := labels + [LabelAt(data, offset)];
        offset := AfterLabel(data, offset);
      }
    }
    return Decoded(Join(labels), if jumped then originalOffset else offset);
  }

  // ---- the place a name ends ------------------------------------------------------------------

  /** Where the plain labels at `offset` stop: at a pointer, a zero byte, or past the data. */
  function PlainEnd(data: seq<byte>, offset: nat): nat
    decreases |data| - offset
  {
    if offset >= |data| || data[offset] >= 192 || data[offset] == 0 then offset
    else PlainEnd(data, AfterLabel(data, offset))
  }

  /** After a jump the reader resumes two past the first pointer, wherever the jumps led. */
  lemma {:induction false} NameEndsInPlace(data: seq<byte>, offset: nat, jumps: nat)
    requires jumps <= MAX_JUMPS && Walk(data, offset, jumps).Walked?
    ensures var stop := PlainEnd(data, offset);
            Walk(data, offset, jumps).next
            == if stop >= |data| then stop else if data[stop] == 0 then stop + 1 else stop + 2
    decreases |data| - offset
  {
    if offset < |data| && 0 < data[offset] < 192 {
      NameEndsInPlace(data, AfterLabel(data, offset), jumps);
    }
  }

  // ---- round trip -----------------------------------------------------------------------------

  /** The labels whose length byte the decoder reads as a length: every one section 4.1.2
      allows (1 to 63), and those up to 191 that it does not. */
  predicate ReadsAsLabel(piece: string) {
    1 <= |piece| <= 191
  }

  predicate AllRead(labels: seq<string>) {
    forall i :: 0 <= i < |labels| ==> ReadsAsLabel(labels[i])
  }

  /** `bytes` stand in `data` at `offset`. */
  predicate At(data: seq<byte>, offset: nat, bytes: seq<byte>) {
    offset + |bytes| <= |data| && forall i {:trigger bytes[i]} :: 0 <= i < |bytes| ==> data[offset + i] == bytes[i]
  }

  lemma AtSplits(data: seq<byte>, offset: nat, a: seq<byte>, b: seq<byte>)
    requires At(data, offset, a + b)
    ensures At(data, offset, a) && At(data, offset + |a|, b)
  {
    forall i | 0 <= i < |a|
      ensures data[offset + i] == a[i]
    {
      assert (a + b)[i] == a[i];
    }
    forall i | 0 <= i < |b|
      ensures data[offset + |a| + i] == b[i]
    {
      assert (a + b)[|a| + i] == b[i];
    }
  }

  lemma AtMiddle(before: seq<byte>, bytes: seq<byte>, after: seq<byte>)
    ensures At(before + bytes + after, |before|, bytes)
  {
  }

  lemma {:induction false} AsciiTextReadsBack(data: seq<byte>, from: nat, text: string)
    requires IsAscii(text) && At(data, from, AsciiBytes(text))
    ensures TextAt(data, from, |text|) == text
    decreases |text|
  {
    if text != "" {
      var bytes := AsciiBytes(text);
      assert bytes[1..] == AsciiBytes(text[1..]);
      AtSplits(data, from, [bytes[0]], bytes[1..]);
      assert bytes == [bytes[0]] + bytes[1..];
      AsciiTextReadsBack(data, from + 1, text[1..]);
      assert data[from + 0] == bytes[0];
      assert text == [text[0]] + text[1..];
    }
  }

  /** An encoded label: its length, and its characters after it. */
  lemma EncodedLabelReadsBack(data: seq<byte>, offset: nat, piece: string)
    requires EncodeLabel(piece).Bytes? && At(data, offset, EncodeLabel(piece).bytes)
    ensures offset < |data| && data[offset] as nat == |piece| && TextAt(data, offset + 1, |piece|) == piece
  {
    var length := [|piece| as byte];
    AtSplits(data, offset, length, AsciiBytes(piece));
    assert data[offset + 0] == length[0];
    AsciiTextReadsBack(data, offset + 1, piece);
  }

  /** A label reads byte by byte: ASCII as itself, anything else as the replacement character, and no
      further than the data goes. */
  lemma {:induction false} TextReadsByteByByte(data: seq<byte>, from: nat, length: nat)
    ensures |TextAt(data, from, length)|
         == if from >= |data| then 0 else if from + length <= |data| then length else |data| - from
    ensures forall i :: 0 <= i < |TextAt(data, from, length)| ==>
              TextAt(data, from, length)[i] as int == if data[from + i] <= 127 then data[from + i] as int else 0xFFFD
    decreases length
  {
    if length > 0 && from < |data| {
      TextReadsByteByByte(data, from + 1, length - 1);
    }
  }

  lemma WalkOverLabel(data: seq<byte>, offset: nat, piece: string, jumps: nat)
    requires jumps <= MAX_JUMPS && ReadsAsLabel(piece) && EncodeLabel(piece).Bytes?
    requires At(data, offset, EncodeLabel(piece).bytes)
    ensures Walk(data, offset, jumps) == Prepend([piece], Walk(data, offset + 1 + |piece|, jumps))
  {
    EncodedLabelReadsBack(data, offset, piece);
    assert LabelAt(data, offset) == piece;
  }

  lemma RestIsRead(labels: seq<string>)
    requires labels != [] && AllRead(labels)
    ensures ReadsAsLabel(labels[0]) && AllRead(labels[1..])
  {
    forall i | 0 <= i < |labels[1..]|
      ensures ReadsAsLabel(labels[1..][i])
    {
      assert labels[1..][i] == labels[i + 1];
    }
  }

  /** Encoded labels are the first label's bytes and then the encoded rest. */
  lemma FirstLabelAndRest(data: seq<byte>, offset: nat, labels: seq<string>)
    requires labels != [] && EncodeLabels(labels).Bytes? && At(data, offset, EncodeLabels(labels).bytes)
    ensures EncodeLabel(labels[0]).Bytes? && At(data, offset, EncodeLabel(labels[0]).bytes)
    ensures EncodeLabels(labels[1..]).Bytes? && At(data, offset + 1 + |labels[0]|, EncodeLabels(labels[1..]).bytes)
    ensures |EncodeLabels(labels).bytes| == 1 + |labels[0]| + |EncodeLabels(labels[1..]).bytes|
  {
    AtSplits(data, offset, EncodeLabel(labels[0]).bytes, EncodeLabels(labels[1..]).bytes);
  }

  lemma OneMoreInFront(labels: seq<string>, whole: Walked, rest: Walked, end: Walked)
    requires labels != [] && whole == Prepend([labels[0]], rest) && rest == Prepend(labels[1..], end)
    ensures whole == Prepend(labels, end)
  {
    PrependTwice([labels[0]], labels[1..], end);
    assert [labels[0]] + labels[1..] == labels;
  }

  /** Reading encoded labels gives them back and carries on where they stop. */
  lemma {:induction false} WalkOverLabels(data: seq<byte>, offset: nat, labels: seq<string>, jumps: nat)
    requires jumps <= MAX_JUMPS && EncodeLabels(labels).Bytes? && AllRead(labels)
    requires At(data, offset, EncodeLabels(labels).bytes)
    ensures Walk(data, offset, jumps)
         == Prepend(labels, Walk(data, offset + |EncodeLabels(labels).bytes|, jumps))
    decreases |labels|
  {
    if labels == [] {
      PrependNothing(Walk(data, offset, jumps));
    } else {
      var stop := offset + |EncodeLabels(labels).bytes|;
      var middle := offset + 1 + |labels[0]|;
      RestIsRead(labels);
      FirstLabelAndRest(data, offset, labels);
      WalkOverLabel(data, offset, labels[0], jumps);
      WalkOverLabels(data, middle, labels[1..], jumps);
      OneMoreInFront(labels, Walk(data, offset, jumps), Walk(data, middle, jumps), Walk(data, stop, jumps));
    }
  }

  /** A whole encoded name, zero byte included, reads back as its labels. */
  lemma WalkOverName(data: seq<byte>, offset: nat, labels: seq<string>, jumps: nat)
    requires jumps <= MAX_JUMPS && EncodeLabels(labels).Bytes? && AllRead(labels)
    requires At(data, offset, EncodeLabels(labels).bytes + [0])
    ensures Walk(data, offset, jumps) == Walked(labels, offset + |EncodeLabels(labels).bytes| + 1)
  {
    var bytes := EncodeLabels(labels).bytes;
    var stop := offset + |bytes|;
    AtSplits(data, offset, bytes, [0]);
    var zero: seq<byte> := [0];
    assert data[stop + 0] == zero[0];
    WalkOverLabels(data, offset, labels, jumps);
    assert labels + [] == labels;
  }

  /** The question's name reads back, with the offset just past its zero byte, whatever
      precedes and follows it in the packet. */
  lemma RoundTrip(name: string, before: seq<byte>, after: seq<byte>)
    requires EncodeName(name).Bytes?
    requires AllRead(Split(StripTrailingDots(name)))
    ensures var qname := EncodeName(name).bytes;
            DecodeName(before + qname + after, |before|) == Decoded(StripTrailingDots(name), |before| + |qname|)
  {
    AtMiddle(before, EncodeName(name).bytes, after);
    WalkOverName(before + EncodeName(name).bytes + after, |before|, Split(StripTrailingDots(name)), 0);
    JoinUndoesSplit(StripTrailingDots(name));
  }

  lemma UnreadableFirstLabel(data: seq<byte>, offset: nat, piece: string)
    requires EncodeLabel(piece).Bytes? && !ReadsAsLabel(piece)
    requires At(data, offset, EncodeLabel(piece).bytes)
    ensures Walk(data, offset, 0).Walked? ==> Walk(data, offset, 0).next <= offset + 1 + |piece|
  {
    assert data[offset + 0] == EncodeLabel(piece).bytes[0] == |piece| as byte;
  }

  lemma SomeLaterLabelIsUnreadable(labels: seq<string>)
    requires !AllRead(labels) && ReadsAsLabel(labels[0])
    ensures !AllRead(labels[1..])
  {
    var i :| 0 <= i < |labels| && !ReadsAsLabel(labels[i]);
    assert labels[1..][i - 1] == labels[i];
  }

  lemma PrependKeepsNext(labels: seq<string>, rest: Walked)
    ensures Prepend(labels, rest).Walked? <==> rest.Walked?
    ensures rest.Walked? ==> Prepend(labels, rest).next == rest.next
  {
  }

  lemma {:induction false} UnreadableLabelStopsEarly(data: seq<byte>, offset: nat, labels: seq<string>)
    requires EncodeLabels(labels).Bytes? && At(data, offset, EncodeLabels(labels).bytes)
    requires !AllRead(labels)
    ensures Walk(data, offset, 0).Walked? ==> Walk(data, offset, 0).next <= offset + |EncodeLabels(labels).bytes|
    decreases |labels|
  {
    var middle := offset + 1 + |labels[0]|;
    FirstLabelAndRest(data, offset, labels);
    if ReadsAsLabel(labels[0]) {
      SomeLaterLabelIsUnreadable(labels);
      UnreadableLabelStopsEarly(data, middle, labels[1..]);
      WalkOverLabel(data, offset, labels[0], 0);
      PrependKeepsNext([labels[0]], Walk(data, middle, 0));
    } else {
      UnreadableFirstLabel(data, offset, labels[0]);
    }
  }

  /** Exactly which names survive: those whose labels are all between 1 and 191 characters. An
      empty label ends the name early; a longer one reads as a compression pointer. */
  lemma RoundTripExactly(name: string, before: seq<byte>, after: seq<byte>)
    requires EncodeName(name).Bytes?
    ensures var qname := EncodeName(name).bytes;
            DecodeName(before + qname + after, |before|) == Decoded(StripTrailingDots(name), |before| + |qname|)
            <==> AllRead(Split(StripTrailingDots(name)))
  {
    var labels := Split(StripTrailingDots(name));
    if AllRead(labels) {
      RoundTrip(name, before, after);
    } else {
      AtMiddle(before, EncodeName(name).bytes, after);
      AtSplits(before + EncodeName(name).bytes + after, |before|, EncodeLabels(labels).bytes, [0]);
      UnreadableLabelStopsEarly(before + EncodeName(name).bytes + after, |before|, labels);
    }
  }

  /** The query this program sends carries its name, without trailing dots, at offset 12. */
  lemma QueryNameReadsBack(name: string, qtype: int, tail: seq<byte>)
    requires Query(name, qtype).Bytes?
    requires forall i :: 0 <= i < |Split(StripTrailingDots(name))| ==> 1 <= |Split(StripTrailingDots(name))[i]| <= 63
    ensures DecodeName(Query(name, qtype).bytes + tail, 12)
         == Decoded(StripTrailingDots(name), 12 + |EncodeName(name).bytes|)
  {
    var (qname, end) := (EncodeName(name).bytes, [(qtype / 256) as byte, (qtype % 256) as byte, 0, 1]);
    assert HEADER + qname + end + tail == HEADER + qname + (end + tail);
    RoundTrip(name, HEADER, end + tail);
  }

  // ---- compression --------------------------------------------------------------------------------

  /** How a name is written in a packet: in full, or as labels and a pointer to the rest of it,
      wherever that stands and however it is written. */
  datatype Spelling = Whole(labels: seq<string>) | Pointing(labels: seq<string>, to: nat, tail: Spelling)

  predicate Spellable(sp: Spelling) {
    && EncodeLabels(sp.labels).Bytes? && AllRead(sp.labels)
    && (sp.Pointing? ==> sp.to < 0x4000 && Spellable(sp.tail))
  }

  function PointerBytes(to: nat): seq<byte>
    requires to < 0x4000
  {
    [(192 + to / 256) as byte, (to % 256) as byte]
  }

  function SpelledBytes(sp: Spelling): seq<byte>
    requires Spellable(sp)
  {
    EncodeLabels(sp.labels).bytes + if sp.Whole? then [0] else PointerBytes(sp.to)
  }

  /** What the pointers of a spelling lead to is in the packet. */
  predicate TailStands(data: seq<byte>, sp: Spelling)
    requires Spellable(sp)
  {
    sp.Pointing? ==> At(data, sp.to, SpelledBytes(sp.tail)) && TailStands(data, sp.tail)
  }

  predicate Stands(data: seq<byte>, at: nat, sp: Spelling)
    requires Spellable(sp)
  {
    At(data, at, SpelledBytes(sp)) && TailStands(data, sp)
  }

  function AllLabels(sp: Spelling): seq<string> {
    match sp
    case Whole(labels) => labels
    case Pointing(labels, _, tail) => labels + AllLabels(tail)
  }

  function Pointers(sp: Spelling): nat {
    if sp.Whole? then 0 else 1 + Pointers(sp.tail)
  }

  /** The labels as far as the decoder follows the pointers, `jumps` of them being behind it. */
  function LabelsRead(sp: Spelling, jumps: nat): seq<string>
    requires jumps <= 20
  {
    match sp
    case Whole(labels) => labels
    case Pointing(labels, _, tail) => if jumps == 20 then labels else labels + LabelsRead(tail, jumps + 1)
  }

  lemma {:induction false} AllAreReadWithinTheLimit(sp: Spelling, jumps: nat)
    requires jumps + Pointers(sp) <= 20
    ensures LabelsRead(sp, jumps) == AllLabels(sp)
  {
    if sp.Pointing? {
      AllAreReadWithinTheLimit(sp.tail, jumps + 1);
    }
  }

  lemma PointerLeadsTo(data: seq<byte>, offset: nat, target: nat, jumps: nat)
    requires jumps <= 20 && target < 0x4000 && At(data, offset, PointerBytes(target))
    ensures Walk(data, offset, jumps)
         == if jumps == 20 then Walked([], offset + 2) else ResumeAt(offset + 2, Walk(data, target, jumps + 1))
  {
    var two := PointerBytes(target);
    assert data[offset + 0] == two[0] && data[offset + 1] == two[1];
    assert PointerAt(data, offset) == target;
  }

  lemma LabelsThenPointer(data: seq<byte>, at: nat, labels: seq<string>, to: nat, jumps: nat)
    requires jumps <= 20 && to < 0x4000 && EncodeLabels(labels).Bytes? && AllRead(labels)
    requires At(data, at, EncodeLabels(labels).bytes + PointerBytes(to))
    ensures var next := at + |EncodeLabels(labels).bytes| + 2;
            Walk(data, at, jumps)
            == if jumps == 20 then Walked(labels, next)
               else Prepend(labels, ResumeAt(next, Walk(data, to, jumps + 1)))
  {
    var bytes := EncodeLabels(labels).bytes;
    AtSplits(data, at, bytes, PointerBytes(to));
    WalkOverLabels(data, at, labels, jumps);
    PointerLeadsTo(data, at + |bytes|, to, jumps);
    assert labels + [] == labels;
  }

  lemma {:induction false} WalkOverSpelling(data: seq<byte>, at: nat, sp: Spelling, jumps: nat)
    requires jumps <= 20 && Spellable(sp) && Stands(data, at, sp)
    ensures Walk(data, at, jumps) == Walked(LabelsRead(sp, jumps), at + |SpelledBytes(sp)|)
    decreases sp
  {
    match sp
    case Whole(labels) => WalkOverName(data, at, labels, jumps);
    case Pointing(labels, to, tail) =>
      LabelsThenPointer(data, at, labels, to, jumps);
      if jumps < 20 {
        WalkOverSpelling(data, to, tail, jumps + 1);
      }
  }

  /** Compression, however a name is spelled and wherever its parts stand: it reads as its labels as
      far as twenty pointers lead, as all of them if it has no more pointers than that; and the
      reader goes on just past the name's own bytes. */
  lemma CompressedNameReadsAsTheWholeName(data: seq<byte>, at: nat, sp: Spelling)
    requires Spellable(sp) && Stands(data, at, sp)
    ensures DecodeName(data, at) == Decoded(Join(LabelsRead(sp, 0)), at + |SpelledBytes(sp)|)
    ensures Pointers(sp) <= 20 ==> LabelsRead(sp, 0) == AllLabels(sp)
  {
    WalkOverSpelling(data, at, sp, 0);
    if Pointers(sp) <= 20 {
      AllAreReadWithinTheLimit(sp, 0);
    }
  }
}
