/** Reading a whole DNS response: its header, its questions and its resource records
    (section 4.1 of RFC 1035), names through `DnsName`. */
module DnsMessage {
  import opened DnsName
  import opened Text

  // ---- numbers -----------------------------------------------------------------------------------

  function U16At(data: seq<byte>, at: nat): nat
    requires at + 2 <= |data|
  {
    data[at] as nat * 256 + data[at + 1] as nat
  }

  function U32At(data: seq<byte>, at: nat): nat
    requires at + 4 <= |data|
  {
    U16At(data, at) * 0x1_0000 + U16At(data, at + 2)
  }

  // ---- text records --------------------------------------------------------------------------------

  /** Where the first `=` stands, or the length if there is none. */
  function EqualsAt(text: string): (i: nat)
    ensures i <= |text| && (i < |text| ==> text[i] == '=') && forall j :: 0 <= j < i ==> text[j] != '='
  {
    if text == "" || text[0] == '=' then 0 else 1 + EqualsAt(text[1..])
  }

  /** One string of a text record; only `key=value` counts, and the key is kept in lower case. */
  function WithText(props: map<string, string>, text: string): map<string, string> {
    var i := EqualsAt(text);
    if i == |text| then props else props[Lower(text[..i]) := text[i + 1..]]
  }

  /** The properties a list of strings names, later ones over earlier ones of the same key. */
  function PropsOf(texts: seq<string>): map<string, string>
    decreases |texts|
  {
    if texts == [] then map[] else WithText(PropsOf(texts[..|texts| - 1]), texts[|texts| - 1])
  }

  /** The non-empty strings of a text record, or `TxtCut` where the data ends too soon. */
  datatype Txt = Strings(texts: seq<string>) | TxtCut

  function After(texts: seq<string>, rest: Txt): Txt {
    if rest.TxtCut? then rest else Strings(texts + rest.texts)
  }

  function TxtFrom(data: seq<byte>, at: nat, end: nat): Txt
    decreases end - at
  {
    if at >= end then Strings([])
    else if at >= |data| then TxtCut
    else if data[at] == 0 then TxtFrom(data, at + 1, end)
    else After([TextAt(data, at + 1, data[at] as nat)], TxtFrom(data, at + 1 + data[at] as nat, end))
  }

  lemma AfterTwice(a: seq<string>, b: seq<string>, rest: Txt)
    ensures After(a, After(b, rest)) == After(a + b, rest)
    ensures After([], rest) == rest && After(a, Strings([])) == Strings(a)
  {
    assert a + [] == a;
    if rest.Strings? {
      assert a + (b + rest.texts) == a + b + rest.texts && [] + rest.texts == rest.texts;
    }
  }

  datatype TxtProps = Props(props: map<string, string>) | PropsCut

  function ReadTxt(data: seq<byte>, at: nat, rdlength: nat): TxtProps {
    match TxtFrom(data, at, at + rdlength)
    case TxtCut => PropsCut
    case Strings(texts) => Props(PropsOf(texts))
  }

  lemma OneMoreString(data: seq<byte>, pos: nat, end: nat, seen: seq<string>)
    requires pos < end && pos < |data| && data[pos] != 0
    ensures var length := data[pos] as nat;
            After(seen, TxtFrom(data, pos, end))
            == After(seen + [TextAt(data, pos + 1, length)], TxtFrom(data, pos + 1 + length, end))
  {
    var length := data[pos] as nat;
    AfterTwice(seen, [TextAt(data, pos + 1, length)], TxtFrom(data, pos + 1 + length, end));
  }

  lemma OneMoreProp(seen: seq<string>, text: string)
    ensures PropsOf(seen + [text]) == WithText(PropsOf(seen), text)
  {
    assert (seen + [text])[..|seen|] == seen;
  }

  method ParseDnsTxt(data: seq<byte>, rdlength: nat, rdataOffset: nat) returns (r: TxtProps)
    ensures r == ReadTxt(data, rdataOffset, rdlength)
  {
    var props: map<string, string> := map[];
    ghost var seen: seq<string> := [];
    var pos, end := rdataOffset, rdataOffset + rdlength;
    AfterTwice([], [], TxtFrom(data, pos, end));
    while pos < end
      invariant 0 <= pos && props == PropsOf(seen)
      invariant After(seen, TxtFrom(data, pos, end)) == TxtFrom(data, rdataOffset, end)
      decreases end - pos
    {
      if pos >= |data| {
        return PropsCut;
      }
      var length := data[pos] as nat;
      if length == 0 {
        pos := pos + 1;
        continue;
      }
      var text := TextAt(data, pos + 1, length);
      OneMoreString(data, pos, end, seen);
      OneMoreProp(seen, text);
      props, seen, pos := WithText(props, text), seen + [text], pos + 1 + length;
    }
    AfterTwice(seen, [], Strings([]));
    return Props(props);
  }

  // ---- records -----------------------------------------------------------------------------------

  datatype RData =
    | Address(octets: seq<byte>)
    | Pointer(target: string)
    | Text(props: map<string, string>)
    | Service(priority: nat, weight: nat, port: nat, target: string)
    | NoData

  datatype Record = Record(name: string, rtype: nat, rclass: nat, ttl: nat, rdlength: nat, rdata: RData)

  /** What reading one record's data comes to; `RDataCut` where the program raises. */
  datatype RDataRead = RDataRead(rdata: RData) | RDataCut

  function ReadRData(data: seq<byte>, rtype: nat, at: nat, rdlength: nat): RDataRead {
    if rtype == 1 then
      if rdlength != 4 then RDataRead(NoData)
      else if at + 4 > |data| then RDataCut
      else RDataRead(Address(data[at..at + 4]))
    else if rtype == 12 then
      (match DecodeName(data, at) case Malformed => RDataCut case Decoded(target, _) => RDataRead(Pointer(target)))
    else if rtype == 16 then
      (match ReadTxt(data, at, rdlength) case PropsCut => RDataCut case Props(props) => RDataRead(Text(props)))
    else if rtype == 33 && rdlength >= 6 then
      if at + 6 > |data| then RDataCut
      else (match DecodeName(data, at + 6)
            case Malformed => RDataCut
            case Decoded(target, _) =>
              RDataRead(Service(U16At(data, at), U16At(data, at + 2), U16At(data, at + 4), target)))
    else RDataRead(NoData)
  }

  /** The record at `at`; `NoMore` where the loop stops, `Raises` where it raises. */
  datatype OneRecord = One(record: Record, next: nat) | NoMore | Raises

  function ReadRecord(data: seq<byte>, at: nat): OneRecord {
    if at >= |data| then NoMore
    else match DecodeName(data, at)
      case Malformed => Raises
      case Decoded(name, fixed) =>
        if fixed + 10 > |data| then NoMore
        else
          var (rtype, rclass, ttl, rdlength) :=
            (U16At(data, fixed), U16At(data, fixed + 2) % 0x8000, U32At(data, fixed + 4), U16At(data, fixed + 8));
          match ReadRData(data, rtype, fixed + 10, rdlength)
          case RDataCut => Raises
          case RDataRead(rdata) => One(Record(name, rtype, rclass, ttl, rdlength, rdata), fixed + 10 + rdlength)
  }

  datatype Response = Records(records: seq<Record>) | Broken

  function Before(records: seq<Record>, rest: Response): Response {
    if rest.Broken? then rest else Records(records + rest.records)
  }

  function ReadRecords(data: seq<byte>, at: nat, count: nat): Response
    decreases count
  {
    if count == 0 then Records([])
    else match ReadRecord(data, at)
      case NoMore => Records([])
      case Raises => Broken
      case One(record, next) => Before([record], ReadRecords(data, next, count - 1))
  }

  datatype Skipped = Skipped(at: nat) | SkipRaises

  function SkipQuestions(data: seq<byte>, at: nat, count: nat): Skipped
    decreases count
  {
    if count == 0 then Skipped(at)
    else match DecodeName(data, at)
      case Malformed => SkipRaises
      case Decoded(_, next) => SkipQuestions(data, next + 4, count - 1)
  }

  function ReadResponse(data: seq<byte>): Response {
    if |data| < 12 then Records([])
    else match SkipQuestions(data, 12, U16At(data, 4))
      case SkipRaises => Broken
      case Skipped(at) => ReadRecords(data, at, U16At(data, 6) + U16At(data, 8) + U16At(data, 10))
  }

  lemma BeforeTwice(a: seq<Record>, b: seq<Record>, rest: Response)
    ensures Before(a, Before(b, rest)) == Before(a + b, rest)
  {
    if rest.Records? {
      assert a + (b + rest.records) == a + b + rest.records;
    }
  }

  lemma NothingBefore(rest: Response)
    ensures Before([], rest) == rest
  {
    if rest.Records? {
      assert [] + rest.records == rest.records;
    }
  }

  lemma BeforeNothing(records: seq<Record>)
    ensures Before(records, Records([])) == Records(records)
  {
    assert records + [] == records;
  }

  method ParseRecord(data: seq<byte>, at: nat) returns (r: OneRecord)
    ensures r == ReadRecord(data, at)
  {
    if at >= |data| {
      return NoMore;
    }
    var name := ParseDnsName(data, at);
    if name.Malformed? {
      return Raises;
    }
    var offset := name.next;
    if offset + 10 > |data| {
      return NoMore;
    }
    var rdlength := U16At(data, offset + 8);
    var rdata := ReadRData(data, U16At(data, offset), offset + 10, rdlength);
    if rdata.RDataCut? {
      return Raises;
    }
    return One(Record(name.name, U16At(data, offset), U16At(data, offset + 2) % 0x8000, U32At(data, offset + 4),
                      rdlength, rdata.rdata), offset + 10 + rdlength);
  }

  method ParseMdnsResponse(data: seq<byte>) returns (r: Response)
    ensures r == ReadResponse(data)
  {
    if |data| < 12 {
      return Records([]);
    }
    var offset: nat := 12;
    var questions := U16At(data, 4);
    for i := 0 to questions
      invariant SkipQuestions(data, offset, questions - i) == SkipQuestions(data, 12, questions)
    {
      var name := ParseDnsName(data, offset);
      if name.Malformed? {
        return Broken;
      }
      offset := name.next + 4;
    }
    var total := U16At(data, 6) + U16At(data, 8) + U16At(data, 10);
    var records: seq<Record> := [];
    ghost var start := offset;
    NothingBefore(ReadRecords(data, start, total));
    for i := 0 to total
      invariant Before(records, ReadRecords(data, offset, total - i)) == ReadRecords(data, start, total)
    {
      var one := ParseRecord(data, offset);
      if one.NoMore? {
        BeforeNothing(records);
        return Records(records);
      }
      if one.Raises? {
        return Broken;
      }
      BeforeTwice(records, [one.record], ReadRecords(data, one.next, total - i - 1));
      records, offset := records + [one.record], one.next;
    }
    BeforeNothing(records);
    return Records(records);
  }

  // ---- a response reads back ---------------------------------------------------------------------------

  function Bytes16(n: nat): seq<byte>
    requires n < 0x1_0000
  {
    [(n / 256) as byte, (n % 256) as byte]
  }

  function Bytes32(n: nat): seq<byte>
    requires n < 0x1_0000_0000
  {
    Bytes16(n / 0x1_0000) + Bytes16(n % 0x1_0000)
  }

  lemma U16ReadsBack(data: seq<byte>, at: nat, n: nat)
    requires n < 0x1_0000 && At(data, at, Bytes16(n))
    ensures at + 2 <= |data| && U16At(data, at) == n
  {
    var bytes := Bytes16(n);
    assert data[at + 0] == bytes[0] && data[at + 1] == bytes[1];
  }

  lemma U32ReadsBack(data: seq<byte>, at: nat, n: nat)
    requires n < 0x1_0000_0000 && At(data, at, Bytes32(n))
    ensures at + 4 <= |data| && U32At(data, at) == n
  {
    AtSplits(data, at, Bytes16(n / 0x1_0000), Bytes16(n % 0x1_0000));
    U16ReadsBack(data, at, n / 0x1_0000);
    U16ReadsBack(data, at + 2, n % 0x1_0000);
  }

  /** The strings of a text record that are not empty: the reader passes over the others. */
  function Spoken(texts: seq<string>): seq<string>
    decreases |texts|
  {
    if texts == [] then [] else (if texts[0] == "" then [] else [texts[0]]) + Spoken(texts[1..])
  }

  function TextBytes(texts: seq<string>): seq<byte>
    requires EncodeLabels(texts).Bytes?
  {
    EncodeLabels(texts).bytes
  }

  lemma SpokenOne(text: string)
    ensures Spoken([text]) == if text == "" then [] else [text]
  {
    assert [text][1..] == [];
  }

  lemma OneTextReadsBack(data: seq<byte>, at: nat, text: string, end: nat)
    requires EncodeLabel(text).Bytes? && At(data, at, EncodeLabel(text).bytes) && at < end
    ensures TxtFrom(data, at, end) == After(Spoken([text]), TxtFrom(data, at + 1 + |text|, end))
  {
    EncodedLabelReadsBack(data, at, text);
    SpokenOne(text);
    AfterTwice([], [], TxtFrom(data, at + 1 + |text|, end));
  }

  /** A text record's strings, each as its length and its characters, all read back in order. */
  lemma {:induction false} TextsReadBack(data: seq<byte>, at: nat, texts: seq<string>)
    requires EncodeLabels(texts).Bytes? && At(data, at, TextBytes(texts))
    ensures TxtFrom(data, at, at + |TextBytes(texts)|) == Strings(Spoken(texts))
    decreases |texts|
  {
    if texts != [] {
      var (end, next) := (at + |TextBytes(texts)|, at + 1 + |texts[0]|);
      FirstLabelAndRest(data, at, texts);
      OneTextReadsBack(data, at, texts[0], end);
      TextsReadBack(data, next, texts[1..]);
      assert end == next + |TextBytes(texts[1..])|;
      SpokenOne(texts[0]);
    }
  }

  // ---- a response as a responder sends it -------------------------------------------------------------

  datatype Payload =
    | PointerTo(target: Spelling)
    | AddressOf(octets: seq<byte>)
    | TextOf(texts: seq<string>)
    | ServiceOf(priority: nat, weight: nat, port: nat, target: Spelling)
    | OtherData(rtype: nat, octets: seq<byte>)

  /** A resource record: names written in full or compressed. */
  datatype Answer = Answer(name: Spelling, payload: Payload, rclass: nat, ttl: nat)

  function TypeOf(p: Payload): nat {
    match p
    case PointerTo(_) => 12
    case AddressOf(_) => 1
    case TextOf(_) => 16
    case ServiceOf(_, _, _, _) => 33
    case OtherData(rtype, _) => rtype
  }

  predicate PayloadSendable(p: Payload) {
    match p
    case PointerTo(target) => Spellable(target)
    case AddressOf(octets) => |octets| == 4
    case TextOf(texts) => EncodeLabels(texts).Bytes?
    case ServiceOf(priority, weight, port, target) =>
      priority < 0x1_0000 && weight < 0x1_0000 && port < 0x1_0000 && Spellable(target)
    case OtherData(rtype, _) => rtype !in {1, 12, 16, 33} && rtype < 0x1_0000
  }

  function PayloadBytes(p: Payload): seq<byte>
    requires PayloadSendable(p)
  {
    match p
    case PointerTo(target) => SpelledBytes(target)
    case AddressOf(octets) => octets
    case TextOf(texts) => TextBytes(texts)
    case ServiceOf(priority, weight, port, target) =>
      Bytes16(priority) + (Bytes16(weight) + (Bytes16(port) + SpelledBytes(target)))
    case OtherData(_, octets) => octets
  }

  predicate Sendable(a: Answer) {
    && Spellable(a.name) && PayloadSendable(a.payload) && |PayloadBytes(a.payload)| < 0x1_0000
    && a.rclass < 0x1_0000 && a.ttl < 0x1_0000_0000
  }

  function FixedBytes(a: Answer): seq<byte>
    requires Sendable(a)
  {
    Bytes16(TypeOf(a.payload)) + (Bytes16(a.rclass) + (Bytes32(a.ttl) + Bytes16(|PayloadBytes(a.payload)|)))
  }

  function AnswerBytes(a: Answer): seq<byte>
    requires Sendable(a)
  {
    SpelledBytes(a.name) + (FixedBytes(a) + PayloadBytes(a.payload))
  }

  /** The answer's bytes, and whatever the pointers in them lead to. */
  predicate AnswerStands(data: seq<byte>, at: nat, a: Answer)
    requires Sendable(a)
  {
    && At(data, at, AnswerBytes(a)) && TailStands(data, a.name)
    && (a.payload.PointerTo? || a.payload.ServiceOf? ==> TailStands(data, a.payload.target))
  }

  /** What a reader should see of the data. */
  function SeenData(p: Payload): RData {
    match p
    case PointerTo(target) => Pointer(Join(LabelsRead(target, 0)))
    case AddressOf(octets) => Address(octets)
    case TextOf(texts) => Text(PropsOf(Spoken(texts)))
    case ServiceOf(priority, weight, port, target) => Service(priority, weight, port, Join(LabelsRead(target, 0)))
    case OtherData(_, _) => NoData
  }

  /** And of the whole record: the class without its cache-flush bit. */
  function SeenRecord(a: Answer): Record
    requires Sendable(a)
  {
    Record(Join(LabelsRead(a.name, 0)), TypeOf(a.payload), a.rclass % 0x8000, a.ttl, |PayloadBytes(a.payload)|,
           SeenData(a.payload))
  }

  lemma FixedReadsBack(data: seq<byte>, at: nat, a: Answer)
    requires Sendable(a) && At(data, at, FixedBytes(a))
    ensures at + 10 <= |data| && U16At(data, at) == TypeOf(a.payload) && U16At(data, at + 2) == a.rclass
    ensures U32At(data, at + 4) == a.ttl && U16At(data, at + 8) == |PayloadBytes(a.payload)|
  {
    var length := Bytes16(|PayloadBytes(a.payload)|);
    AtSplits(data, at, Bytes16(TypeOf(a.payload)), Bytes16(a.rclass) + (Bytes32(a.ttl) + length));
    AtSplits(data, at + 2, Bytes16(a.rclass), Bytes32(a.ttl) + length);
    AtSplits(data, at + 4, Bytes32(a.ttl), length);
    U16ReadsBack(data, at, TypeOf(a.payload));
    U16ReadsBack(data, at + 2, a.rclass);
    U32ReadsBack(data, at + 4, a.ttl);
    U16ReadsBack(data, at + 8, |PayloadBytes(a.payload)|);
  }

  lemma OctetsReadBack(data: seq<byte>, at: nat, octets: seq<byte>)
    requires At(data, at, octets)
    ensures data[at..at + |octets|] == octets
  {
  }

  lemma ServiceReadsBack(data: seq<byte>, at: nat, p: Payload)
    requires PayloadSendable(p) && p.ServiceOf? && At(data, at, PayloadBytes(p)) && TailStands(data, p.target)
    ensures ReadRData(data, 33, at, |PayloadBytes(p)|) == RDataRead(SeenData(p))
  {
    var rest := Bytes16(p.port) + SpelledBytes(p.target);
    AtSplits(data, at, Bytes16(p.priority), Bytes16(p.weight) + rest);
    AtSplits(data, at + 2, Bytes16(p.weight), rest);
    AtSplits(data, at + 4, Bytes16(p.port), SpelledBytes(p.target));
    U16ReadsBack(data, at, p.priority);
    U16ReadsBack(data, at + 2, p.weight);
    U16ReadsBack(data, at + 4, p.port);
    CompressedNameReadsAsTheWholeName(data, at + 6, p.target);
  }

  lemma PayloadReadsBack(data: seq<byte>, at: nat, p: Payload)
    requires PayloadSendable(p) && At(data, at, PayloadBytes(p))
    requires p.PointerTo? || p.ServiceOf? ==> TailStands(data, p.target)
    ensures ReadRData(data, TypeOf(p), at, |PayloadBytes(p)|) == RDataRead(SeenData(p))
  {
    match p
    case PointerTo(target) => CompressedNameReadsAsTheWholeName(data, at, target);
    case AddressOf(octets) => OctetsReadBack(data, at, octets);
    case TextOf(texts) => TextsReadBack(data, at, texts);
    case ServiceOf(_, _, _, _) => ServiceReadsBack(data, at, p);
    case OtherData(_, _) =>
  }

  lemma AnswerInParts(data: seq<byte>, at: nat, a: Answer)
    requires Sendable(a) && At(data, at, AnswerBytes(a))
    ensures var fixed := at + |SpelledBytes(a.name)|;
            && At(data, at, SpelledBytes(a.name)) && At(data, fixed, FixedBytes(a))
            && At(data, fixed + 10, PayloadBytes(a.payload))
            && at + |AnswerBytes(a)| == fixed + 10 + |PayloadBytes(a.payload)|
  {
    var fixed := at + |SpelledBytes(a.name)|;
    AtSplits(data, at, SpelledBytes(a.name), FixedBytes(a) + PayloadBytes(a.payload));
    AtSplits(data, fixed, FixedBytes(a), PayloadBytes(a.payload));
  }

  /** One answer reads back as its record, and the next one starts where its bytes end. */
  lemma AnswerReadsBack(data: seq<byte>, at: nat, a: Answer)
    requires Sendable(a) && AnswerStands(data, at, a)
    ensures ReadRecord(data, at) == One(SeenRecord(a), at + |AnswerBytes(a)|)
  {
    var fixed := at + |SpelledBytes(a.name)|;
    AnswerInParts(data, at, a);
    CompressedNameReadsAsTheWholeName(data, at, a.name);
    FixedReadsBack(data, fixed, a);
    PayloadReadsBack(data, fixed + 10, a.payload);
    RecordFromItsParts(data, at, Join(LabelsRead(a.name, 0)), fixed, SeenData(a.payload));
  }

  lemma RecordFromItsParts(data: seq<byte>, at: nat, name: string, fixed: nat, rdata: RData)
    requires at < |data| && DecodeName(data, at) == Decoded(name, fixed) && fixed + 10 <= |data|
    requires ReadRData(data, U16At(data, fixed), fixed + 10, U16At(data, fixed + 8)) == RDataRead(rdata)
    ensures ReadRecord(data, at)
         == One(Record(name, U16At(data, fixed), U16At(data, fixed + 2) % 0x8000, U32At(data, fixed + 4),
                       U16At(data, fixed + 8), rdata),
                fixed + 10 + U16At(data, fixed + 8))
  {
  }

  predicate AllSendable(answers: seq<Answer>) {
    forall i :: 0 <= i < |answers| ==> Sendable(answers[i])
  }

  /** The answers stand one after another: each from its start to the next one's. */
  predicate StandFrom(data: seq<byte>, starts: seq<nat>, answers: seq<Answer>)
    requires AllSendable(answers)
  {
    && |starts| == |answers| + 1
    && forall i {:trigger answers[i]} :: 0 <= i < |answers| ==>
         AnswerStands(data, starts[i], answers[i]) && starts[i + 1] == starts[i] + |AnswerBytes(answers[i])|
  }

  function SeenRecords(answers: seq<Answer>): seq<Record>
    requires AllSendable(answers)
  {
    seq(|answers|, i requires 0 <= i < |answers| => SeenRecord(answers[i]))
  }

  /** At each start the reader sees the record, and then stands at the next start. */
  predicate ShowFrom(data: seq<byte>, starts: seq<nat>, records: seq<Record>) {
    && |starts| == |records| + 1
    && forall i {:trigger records[i]} :: 0 <= i < |records| ==>
         ReadRecord(data, starts[i]) == One(records[i], starts[i + 1])
  }

  lemma AnswersAreShown(data: seq<byte>, starts: seq<nat>, answers: seq<Answer>)
    requires AllSendable(answers) && StandFrom(data, starts, answers)
    ensures |SeenRecords(answers)| == |answers| && ShowFrom(data, starts, SeenRecords(answers))
  {
    var records := SeenRecords(answers);
    forall i | 0 <= i < |records|
      ensures ReadRecord(data, starts[i]) == One(records[i], starts[i + 1])
    {
      AnswerReadsBack(data, starts[i], answers[i]);
    }
  }

  /** What is shown comes first, and then whatever follows it. */
  lemma {:induction false} ShownComesFirst(data: seq<byte>, starts: seq<nat>, records: seq<Record>, i: nat, more: nat)
    requires ShowFrom(data, starts, records) && i <= |records|
    ensures ReadRecords(data, starts[i], |records| - i + more)
         == Before(records[i..], ReadRecords(data, starts[|records|], more))
    decreases |records| - i
  {
    var rest := ReadRecords(data, starts[|records|], more);
    if i == |records| {
      assert records[i..] == [];
      NothingBefore(rest);
    } else {
      ShownComesFirst(data, starts, records, i + 1, more);
      OneIsRead(data, starts[i], records[i], starts[i + 1], |records| - i + more);
      BeforeTwice([records[i]], records[i + 1..], rest);
      assert [records[i]] + records[i + 1..] == records[i..];
    }
  }

  lemma OneIsRead(data: seq<byte>, at: nat, first: Record, next: nat, count: nat)
    requires count > 0 && ReadRecord(data, at) == One(first, next)
    ensures ReadRecords(data, at, count) == Before([first], ReadRecords(data, next, count - 1))
  {
  }

  lemma ShownIsRead(data: seq<byte>, starts: seq<nat>, records: seq<Record>, more: nat)
    requires ShowFrom(data, starts, records)
    ensures ReadRecords(data, starts[0], |records| + more)
         == Before(records, ReadRecords(data, starts[|records|], more))
  {
    ShownComesFirst(data, starts, records, 0, more);
    assert records[0..] == records;
  }

  lemma AnswersReadBack(data: seq<byte>, starts: seq<nat>, answers: seq<Answer>)
    requires AllSendable(answers) && StandFrom(data, starts, answers)
    ensures ReadRecords(data, starts[0], |answers|) == Records(SeenRecords(answers))
  {
    AnswersAreShown(data, starts, answers);
    ShownIsAll(data, starts, SeenRecords(answers));
  }

  lemma ShownIsAll(data: seq<byte>, starts: seq<nat>, records: seq<Record>)
    requires ShowFrom(data, starts, records)
    ensures ReadRecords(data, starts[0], |records|) == Records(records)
  {
    ShownIsRead(data, starts, records, 0);
    BeforeNothing(records);
  }

  /** What a record's data reads as, by type and length: an address of any other length than four and a
      service of less than six bytes are passed over, as is every other type; a pointer or a text is
      read without regard to its length or to it; and where the data ends too soon the reader raises. */
  lemma DataByType(data: seq<byte>, rtype: nat, at: nat, rdlength: nat)
    ensures rtype == 1 ==>
              ReadRData(data, rtype, at, rdlength) ==
                if rdlength != 4 then RDataRead(NoData)
                else if at + 4 <= |data| then RDataRead(Address([data[at], data[at + 1], data[at + 2], data[at + 3]]))
                else RDataCut
    ensures rtype == 33 && rdlength <= 5 ==> ReadRData(data, rtype, at, rdlength) == RDataRead(NoData)
    ensures rtype == 33 && rdlength >= 6 ==>
              (ReadRData(data, rtype, at, rdlength).RDataCut? <==>
                 at + 6 > |data| || DecodeName(data, at + 6).Malformed?)
    ensures rtype == 12 ==> (ReadRData(data, rtype, at, rdlength).RDataCut? <==> DecodeName(data, at).Malformed?)
    ensures rtype == 16 ==>
              (ReadRData(data, rtype, at, rdlength).RDataCut? <==> TxtFrom(data, at, at + rdlength).TxtCut?)
    ensures rtype !in {1, 12, 16, 33} ==> ReadRData(data, rtype, at, rdlength) == RDataRead(NoData)
  {
    if at + 4 <= |data| {
      assert data[at..at + 4] == [data[at], data[at + 1], data[at + 2], data[at + 3]];
    }
  }

  /** No record begins at `at`, or its fixed part is cut off. */
  predicate DataIsOver(data: seq<byte>, at: nat) {
    at >= |data| || (DecodeName(data, at).Decoded? && DecodeName(data, at).next + 10 > |data|)
  }

  /** A record begins at `at` and its name or its data cannot be read. */
  predicate DataIsCut(data: seq<byte>, at: nat) {
    && at < |data|
    && match DecodeName(data, at)
       case Malformed => true
       case Decoded(_, next) =>
         next + 10 <= |data| && ReadRData(data, U16At(data, next), next + 10, U16At(data, next + 8)).RDataCut?
  }

  lemma ReadingStopsHere(data: seq<byte>, at: nat, count: nat)
    requires count > 0
    ensures DataIsOver(data, at) ==> ReadRecords(data, at, count) == Records([])
    ensures DataIsCut(data, at) ==> ReadRecords(data, at, count) == Broken
  {
  }

  /** A response that promises more records than it has: those that stand in it are returned if the data
      is over after them, and none at all if the next one is cut. */
  lemma ShortResponseIsReadAsFarAsItGoes(data: seq<byte>, starts: seq<nat>, answers: seq<Answer>, missing: nat)
    requires AllSendable(answers) && StandFrom(data, starts, answers) && missing > 0
    ensures DataIsOver(data, starts[|answers|]) ==>
              ReadRecords(data, starts[0], |answers| + missing) == Records(SeenRecords(answers))
    ensures DataIsCut(data, starts[|answers|]) ==> ReadRecords(data, starts[0], |answers| + missing) == Broken
  {
    AnswersAreShown(data, starts, answers);
    ShownAndThenNoMore(data, starts, SeenRecords(answers), missing);
  }

  lemma ShownAndThenNoMore(data: seq<byte>, starts: seq<nat>, records: seq<Record>, missing: nat)
    requires ShowFrom(data, starts, records) && missing > 0
    ensures DataIsOver(data, starts[|records|]) ==>
              ReadRecords(data, starts[0], |records| + missing) == Records(records)
    ensures DataIsCut(data, starts[|records|]) ==> ReadRecords(data, starts[0], |records| + missing) == Broken
  {
    ShownIsRead(data, starts, records, missing);
    ReadingStopsHere(data, starts[|records|], missing);
    BeforeNothing(records);
  }

  /** The questions, of which the reader wants only where they end: each is a name and four bytes. */
  predicate QuestionsStand(data: seq<byte>, at: nat, questions: seq<Spelling>)
    decreases |questions|
  {
    questions == [] ||
    (Spellable(questions[0]) && Stands(data, at, questions[0])
     && QuestionsStand(data, at + |SpelledBytes(questions[0])| + 4, questions[1..]))
  }

  function QuestionsEnd(at: nat, questions: seq<Spelling>): nat
    requires forall q <- questions :: Spellable(q)
    decreases |questions|
  {
    if questions == [] then at else QuestionsEnd(at + |SpelledBytes(questions[0])| + 4, questions[1..])
  }

  lemma OneMoreIsSkipped(data: seq<byte>, at: nat, next: nat, count: nat)
    requires count > 0 && DecodeName(data, at).Decoded? && DecodeName(data, at).next + 4 == next
    ensures SkipQuestions(data, at, count) == SkipQuestions(data, next, count - 1)
  {
  }

  lemma {:induction false} QuestionsAreSkipped(data: seq<byte>, at: nat, questions: seq<Spelling>)
    requires (forall q <- questions :: Spellable(q)) && QuestionsStand(data, at, questions)
    ensures SkipQuestions(data, at, |questions|) == Skipped(QuestionsEnd(at, questions))
    decreases |questions|
  {
    if questions != [] {
      assert questions[0] in questions;
      var next := at + |SpelledBytes(questions[0])| + 4;
      CompressedNameReadsAsTheWholeName(data, at, questions[0]);
      QuestionsAreSkipped(data, next, questions[1..]);
      assert QuestionsEnd(at, questions) == QuestionsEnd(next, questions[1..]);
      OneMoreIsSkipped(data, at, next, |questions|);
    }
  }

  /** A header with its four counts: questions and the three sections of records. */
  datatype Header = Header(id: nat, flags: nat, questions: nat, answers: nat, authorities: nat, extras: nat)

  predicate HeaderOk(h: Header) {
    && h.id < 0x1_0000 && h.flags < 0x1_0000 && h.questions < 0x1_0000
    && h.answers < 0x1_0000 && h.authorities < 0x1_0000 && h.extras < 0x1_0000
  }

  function HeaderBytes(h: Header): seq<byte>
    requires HeaderOk(h)
  {
    Bytes16(h.id) + (Bytes16(h.flags) + (Bytes16(h.questions)
    + (Bytes16(h.answers) + (Bytes16(h.authorities) + Bytes16(h.extras)))))
  }

  lemma HeaderReadsBack(data: seq<byte>, h: Header)
    requires HeaderOk(h) && At(data, 0, HeaderBytes(h))
    ensures |data| >= 12 && U16At(data, 4) == h.questions
    ensures U16At(data, 6) == h.answers && U16At(data, 8) == h.authorities && U16At(data, 10) == h.extras
  {
    var counts := Bytes16(h.answers) + (Bytes16(h.authorities) + Bytes16(h.extras));
    AtSplits(data, 0, Bytes16(h.id), Bytes16(h.flags) + (Bytes16(h.questions) + counts));
    AtSplits(data, 2, Bytes16(h.flags), Bytes16(h.questions) + counts);
    AtSplits(data, 4, Bytes16(h.questions), counts);
    AtSplits(data, 6, Bytes16(h.answers), Bytes16(h.authorities) + Bytes16(h.extras));
    AtSplits(data, 8, Bytes16(h.authorities), Bytes16(h.extras));
    U16ReadsBack(data, 4, h.questions);
    U16ReadsBack(data, 6, h.answers);
    U16ReadsBack(data, 8, h.authorities);
    U16ReadsBack(data, 10, h.extras);
  }

  lemma RecordsFollowQuestions(data: seq<byte>, at: nat)
    requires |data| >= 12 && SkipQuestions(data, 12, U16At(data, 4)) == Skipped(at)
    ensures ReadResponse(data) == ReadRecords(data, at, U16At(data, 6) + U16At(data, 8) + U16At(data, 10))
  {
  }

  /** A whole response reads back as exactly its records, in order and over all three sections: its
      questions are passed over, every kind of record the reader knows is taken apart and every
      other one kept without its data, with names compressed in any way, whatever follows. */
  lemma ResponseReadsBack(
    data: seq<byte>, h: Header, questions: seq<Spelling>, starts: seq<nat>, records: seq<Answer>)
    requires HeaderOk(h) && At(data, 0, HeaderBytes(h))
    requires |questions| == h.questions && |records| == h.answers + h.authorities + h.extras
    requires (forall q <- questions :: Spellable(q)) && QuestionsStand(data, 12, questions)
    requires AllSendable(records) && StandFrom(data, starts, records) && starts[0] == QuestionsEnd(12, questions)
    ensures ReadResponse(data) == Records(SeenRecords(records))
  {
    HeaderReadsBack(data, h);
    QuestionsAreSkipped(data, 12, questions);
    AnswersReadBack(data, starts, records);
    RecordsFollowQuestions(data, starts[0]);
  }

  /** A response never yields more records than its header promises. */
  lemma {:induction false} RecordsAreBounded(data: seq<byte>, at: nat, count: nat)
    ensures ReadRecords(data, at, count).Records? ==> |ReadRecords(data, at, count).records| <= count
    decreases count
  {
    if count > 0 && ReadRecord(data, at).One? {
      RecordsAreBounded(data, ReadRecord(data, at).next, count - 1);
    }
  }

  /** Each key ends with the value of the last string that names it, in any case. */
  lemma {:induction false} LastTextWins(texts: seq<string>, k: nat)
    requires k < |texts| && EqualsAt(texts[k]) < |texts[k]|
    requires forall j :: k < j < |texts| && EqualsAt(texts[j]) < |texts[j]| ==> KeyOf(texts[j]) != KeyOf(texts[k])
    ensures KeyOf(texts[k]) in PropsOf(texts) && PropsOf(texts)[KeyOf(texts[k])] == texts[k][EqualsAt(texts[k]) + 1..]
    decreases |texts|
  {
    var n := |texts| - 1;
    if k < n {
      LastTextWins(texts[..n], k);
    }
  }

  function KeyOf(text: string): string {
    Lower(text[..EqualsAt(text)])
  }
}
