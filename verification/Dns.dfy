/**
 * The recursor probe's DNS messages (RFC 1035): the writer of the query and the walker that finds the
 * first TXT string of a response. Messages are modelled as records and encoded by section 4.1; the
 * walker is shown to read back from the bytes what the records say.
 */
module Dns {
  import opened Wrappers
  import opened Bytes

  const TXT: Word := 16

  const DOT: Byte := 46

  // ---------------------------------------------------------------------- names

  type Label = seq<Byte>

  /** `split('.')`: the pieces between the dots, at least one. */
  function Split(name: seq<Byte>): (labels: seq<Label>)
    ensures |labels| >= 1
  {
    if name == [] then [[]]
    else if name[0] == DOT then [[]] + Split(name[1..])
    else
      var rest := Split(name[1..]);
      [[name[0]] + rest[0]] + rest[1..]
  }

  function Join(labels: seq<Label>): seq<Byte> {
    if labels == [] then []
    else if |labels| == 1 then labels[0]
    else labels[0] + [DOT] + Join(labels[1..])
  }

  /** A label as the writer emits it: the length byte stops at 63, the bytes do not. */
  function WriteLabel(part: Label): (bytes: seq<Byte>)
    ensures |bytes| == 1 + |part|
  {
    [if |part| < 63 then |part| else 63] + part
  }

  function WriteLabels(labels: seq<Label>): seq<Byte> {
    if labels == [] then [] else WriteLabel(labels[0]) + WriteLabels(labels[1..])
  }

  predicate ProperLabel(part: Label) {
    1 <= |part| <= 63
  }

  predicate ProperLabels(labels: seq<Label>) {
    forall i :: 0 <= i < |labels| ==> ProperLabel(labels[i])
  }

  /** A domain name: labels and the root, or labels and a pointer (section 4.1.4). */
  datatype Name = Plain(labels: seq<Label>) | Compressed(labels: seq<Label>, pointer: nat)

  predicate ProperName(name: Name) {
    ProperLabels(name.labels) && (name.Compressed? ==> name.pointer < 0x4000)
  }

  function EncodeName(name: Name): (bytes: seq<Byte>)
    requires ProperName(name)
  {
    match name
    case Plain(labels) => WriteLabels(labels) + [0]
    case Compressed(labels, pointer) => WriteLabels(labels) + [0xC0 + pointer / 0x100, pointer % 0x100]
  }

  // ---------------------------------------------------------------------- messages

  datatype Question = Question(name: Name, qtype: Word, qclass: Word)

  datatype Record = Record(owner: Name, rtype: Word, rclass: Word, ttlHigh: Word, ttlLow: Word, rdata: seq<Byte>)

  /** `tail` stands for the authority and additional sections. */
  datatype Message = Message(
    id: Word, flags: Word, questions: seq<Question>, answers: seq<Record>, nscount: Word, arcount: Word, tail: seq<Byte>)

  function EncodeQuestion(q: Question): seq<Byte>
    requires ProperName(q.name)
  {
    EncodeName(q.name) + (BigEndian(q.qtype) + BigEndian(q.qclass))
  }

  /** The ten bytes between a record's owner and its data. */
  function EncodeFixed(r: Record): (bytes: seq<Byte>)
    requires |r.rdata| < 0x1_0000
    ensures |bytes| == 10
  {
    BigEndian(r.rtype) + BigEndian(r.rclass) + BigEndian(r.ttlHigh) + BigEndian(r.ttlLow) + BigEndian(|r.rdata|)
  }

  function EncodeRecord(r: Record): seq<Byte>
    requires ProperRecord(r)
  {
    EncodeName(r.owner) + (EncodeFixed(r) + r.rdata)
  }

  /** Record data fits its length field, and TXT data holds at least one string (section 3.3.14). */
  predicate ProperRecord(r: Record) {
    ProperName(r.owner) && |r.rdata| < 0x1_0000 &&
    (r.rtype == TXT ==> |r.rdata| >= 1 && 1 + r.rdata[0] <= |r.rdata|)
  }

  predicate ProperQuestions(qs: seq<Question>) {
    qs == [] || (ProperName(qs[0].name) && ProperQuestions(qs[1..]))
  }

  predicate ProperRecords(rs: seq<Record>) {
    rs == [] || (ProperRecord(rs[0]) && ProperRecords(rs[1..]))
  }

  predicate ProperMessage(m: Message) {
    |m.questions| < 0x1_0000 && |m.answers| < 0x1_0000 && ProperQuestions(m.questions) && ProperRecords(m.answers)
  }

  function EncodeQuestions(qs: seq<Question>): seq<Byte>
    requires ProperQuestions(qs)
  {
    if qs == [] then [] else EncodeQuestion(qs[0]) + EncodeQuestions(qs[1..])
  }

  function EncodeRecords(rs: seq<Record>): seq<Byte>
    requires ProperRecords(rs)
  {
    if rs == [] then [] else EncodeRecord(rs[0]) + EncodeRecords(rs[1..])
  }

  function Header(id: Word, flags: Word, qdcount: Word, ancount: Word, nscount: Word, arcount: Word): (bytes: seq<Byte>)
    ensures |bytes| == 12
  {
    BigEndian(id) + BigEndian(flags) + BigEndian(qdcount) + BigEndian(ancount) + BigEndian(nscount) + BigEndian(arcount)
  }

  function EncodeMessage(m: Message): seq<Byte>
    requires ProperMessage(m)
  {
    Header(m.id, m.flags, |m.questions|, |m.answers|, m.nscount, m.arcount) +
    (EncodeQuestions(m.questions) + (EncodeRecords(m.answers) + m.tail))
  }

  /** The first string of the first TXT answer; an empty one counts as none. */
  function FirstTxt(answers: seq<Record>): Option<seq<Byte>>
    requires ProperRecords(answers)
  {
    if answers == [] then None
    else if answers[0].rtype == 16 then
      if answers[0].rdata[0] == 0 then None else Some(answers[0].rdata[1..1 + answers[0].rdata[0]])
    else FirstTxt(answers[1..])
  }

  // ---------------------------------------------------------------------- the walker

  /** One past the name at `pos`: a root byte, or the two bytes of a pointer, ends it. */
  function NameEnd(packet: seq<Byte>, pos: nat): Option<nat>
    decreases |packet| - pos
  {
    if pos >= |packet| then None
    else if packet[pos] == 0 then Some(pos + 1)
    else if packet[pos] >= 0xC0 then Some(pos + 2)
    else NameEnd(packet, pos + 1 + packet[pos])
  }

  function QuestionsEnd(packet: seq<Byte>, pos: nat, count: nat): Option<nat>
    decreases count
  {
    if count == 0 then Some(pos)
    else
      match NameEnd(packet, pos)
      case None => None
      case Some(end) => QuestionsEnd(packet, end + 4, count - 1)
  }

  /** `IndexPanic`: the walker read a TXT length byte past the end of the packet. */
  datatype Walk = Nothing | Text(bytes: seq<Byte>) | IndexPanic

  function WalkAnswers(packet: seq<Byte>, pos: nat, count: nat): Walk
    decreases count
  {
    if count == 0 then Nothing
    else
      match NameEnd(packet, pos)
      case None => Nothing
      case Some(end) =>
        if end + 10 > |packet| then Nothing
        else
          var rtype := WordOf(packet[end], packet[end + 1]);
          var rdlength := WordOf(packet[end + 8], packet[end + 9]);
          var data := end + 10;
          if data + rdlength > |packet| then Nothing
          else if rtype == TXT then
            if data >= |packet| then IndexPanic
            else if packet[data] == 0 || data + 1 + packet[data] > |packet| then Nothing
            else Text(packet[data + 1..data + 1 + packet[data]])
          else WalkAnswers(packet, data + rdlength, count - 1)
  }

  function WalkPacket(packet: seq<Byte>): Walk {
    if |packet| < 12 || WordOf(packet[6], packet[7]) == 0 then Nothing
    else
      match QuestionsEnd(packet, 12, WordOf(packet[4], packet[5]))
      case None => Nothing
      case Some(pos) => WalkAnswers(packet, pos, WordOf(packet[6], packet[7]))
  }

  method SkipName(packet: seq<Byte>, start: nat) returns (end: Option<nat>)
    ensures end == NameEnd(packet, start)
  {
    var pos := start;
    while true
      invariant NameEnd(packet, pos) == NameEnd(packet, start)
      decreases |packet| - pos
    {
      if pos >= |packet| {
        return None;
      }
      var b := packet[pos];
      if b == 0 {
        return Some(pos + 1);
      }
      if b >= 0xC0 {
        return Some(pos + 2);
      }
      pos := pos + 1 + b;
    }
  }

  method ParseFirstTxt(packet: seq<Byte>) returns (walk: Walk)
    ensures walk == WalkPacket(packet)
  {
    hide NameEnd;
    if |packet| < 12 {
      return Nothing;
    }
    var qdcount := WordOf(packet[4], packet[5]);
    var ancount := WordOf(packet[6], packet[7]);
    if ancount == 0 {
      return Nothing;
    }
    var pos: nat := 12;
    for i := 0 to qdcount
      invariant QuestionsEnd(packet, pos, qdcount - i) == QuestionsEnd(packet, 12, qdcount)
    {
      var end := SkipName(packet, pos);
      if end.None? {
        return Nothing;
      }
      pos := end.value + 4;
    }
    for i := 0 to ancount
      invariant WalkAnswers(packet, pos, ancount - i) == WalkPacket(packet)
    {
      var end := SkipName(packet, pos);
      if end.None? {
        return Nothing;
      }
      pos := end.value;
      if pos + 10 > |packet| {
        return Nothing;
      }
      var rtype := WordOf(packet[pos], packet[pos + 1]);
      var rdlength := WordOf(packet[pos + 8], packet[pos + 9]);
      pos := pos + 10;
      if pos + rdlength > |packet| {
        return Nothing;
      }
      if rtype == TXT {
        if pos >= |packet| {
          return IndexPanic;
        }
        var length := packet[pos];
        if length == 0 || pos + 1 + length > |packet| {
          return Nothing;
        }
        return Text(packet[pos + 1..pos + 1 + length]);
      }
      pos := pos + rdlength;
    }
    walk := Nothing;
  }

  // ---------------------------------------------------------------------- the writer

  function QueryBytes(id: Word, labels: seq<Label>, qtype: Word, qclass: Word): seq<Byte> {
    Header(id, 0x0100, 1, 0, 0, 0) + (WriteLabels(labels) + ([0] + (BigEndian(qtype) + BigEndian(qclass))))
  }

  method BuildQuery(id: Word, name: seq<Byte>, qtype: Word, qclass: Word) returns (query: seq<Byte>)
    ensures query == QueryBytes(id, Split(name), qtype, qclass)
  {
    query := BigEndian(id) + BigEndian(0x0100) + BigEndian(1) + [0, 0, 0, 0, 0, 0];
    var labels := Split(name);
    assert query == Header(id, 0x0100, 1, 0, 0, 0);
    ghost var header := query;
    for i := 0 to |labels|
      invariant query == header + WriteLabels(labels[..i])
    {
      WriteLabelsSnoc(labels, i);
      Associative(header, WriteLabels(labels[..i]), WriteLabel(labels[i]));
      query := query + ([if |labels[i]| < 63 then |labels[i]| else 63] + labels[i]);
    }
    assert labels[..|labels|] == labels;
    Associative(header, WriteLabels(labels), [0] + (BigEndian(qtype) + BigEndian(qclass)));
    query := query + ([0] + (BigEndian(qtype) + BigEndian(qclass)));
  }

  lemma {:induction false} WriteLabelsAppend(a: seq<Label>, b: seq<Label>)
    ensures WriteLabels(a + b) == WriteLabels(a) + WriteLabels(b)
  {
    if a == [] {
      assert a + b == b;
    } else {
      hide WriteLabel;
      WriteLabelsAppend(a[1..], b);
      assert (a + b)[0] == a[0] && (a + b)[1..] == a[1..] + b;
      Associative(WriteLabel(a[0]), WriteLabels(a[1..]), WriteLabels(b));
    }
  }

  lemma WriteLabelsSnoc(labels: seq<Label>, i: nat)
    requires i < |labels|
    ensures WriteLabels(labels[..i + 1]) == WriteLabels(labels[..i]) + WriteLabel(labels[i])
  {
    assert labels[..i + 1] == labels[..i] + [labels[i]];
    WriteLabelsAppend(labels[..i], [labels[i]]);
    assert WriteLabels([labels[i]]) == WriteLabel(labels[i]) + [];
  }

  // ---------------------------------------------------------------------- reading back

  predicate NoDot(part: Label) {
    DOT !in part
  }

  /** Splitting a dotted name gives back its labels. */
  lemma {:induction false} SplitJoin(labels: seq<Label>)
    requires labels != [] && forall i :: 0 <= i < |labels| ==> NoDot(labels[i])
    ensures Split(Join(labels)) == labels
    decreases |labels|, |labels[0]|
  {
    var name := Join(labels);
    if labels[0] == [] {
      if |labels| > 1 {
        SplitJoin(labels[1..]);
        assert name[1..] == Join(labels[1..]);
      }
    } else {
      var shorter := [labels[0][1..]] + labels[1..];
      SplitJoin(shorter);
      assert name[0] == labels[0][0] && name[0] in labels[0];
      assert name[1..] == Join(shorter);
      assert [labels[0][0]] + labels[0][1..] == labels[0];
    }
  }

  /** The packet holds these bytes at `pos`. */
  ghost predicate Holds(packet: seq<Byte>, pos: nat, bytes: seq<Byte>) {
    pos + |bytes| <= |packet| && forall i {:trigger bytes[i]} :: 0 <= i < |bytes| ==> packet[pos + i] == bytes[i]
  }

  lemma HoldsParts(packet: seq<Byte>, pos: nat, a: seq<Byte>, b: seq<Byte>)
    requires Holds(packet, pos, a + b)
    ensures Holds(packet, pos, a) && Holds(packet, pos + |a|, b)
  {
    forall i {:trigger a[i]} | 0 <= i < |a| ensures packet[pos + i] == a[i] {
      assert (a + b)[i] == a[i];
    }
    forall i {:trigger b[i]} | 0 <= i < |b| ensures packet[pos + |a| + i] == b[i] {
      assert (a + b)[|a| + i] == b[i];
    }
  }

  lemma HoldsInside(packet: seq<Byte>, pos: nat, bytes: seq<Byte>, i: nat, j: nat)
    requires Holds(packet, pos, bytes) && i <= j <= |bytes|
    ensures packet[pos + i..pos + j] == bytes[i..j]
  {
    var part, direct := packet[pos + i..pos + j], bytes[i..j];
    forall k | 0 <= k < |direct| ensures part[k] == direct[k] {
      assert direct[k] == bytes[i + k];
    }
  }

  /** Walking over proper labels lands right behind them. */
  lemma {:induction false} SkipLabels(packet: seq<Byte>, pos: nat, labels: seq<Label>)
    requires ProperLabels(labels) && Holds(packet, pos, WriteLabels(labels))
    ensures NameEnd(packet, pos) == NameEnd(packet, pos + |WriteLabels(labels)|)
    decreases |labels|
  {
    if labels != [] {
      var first := WriteLabel(labels[0]);
      HoldsParts(packet, pos, first, WriteLabels(labels[1..]));
      assert packet[pos + 0] == first[0] == |labels[0]|;
      SkipLabels(packet, pos + |first|, labels[1..]);
      assert NameEnd(packet, pos) == NameEnd(packet, pos + |first|);
    }
  }

  function NameTerminator(name: Name): (bytes: seq<Byte>)
    requires ProperName(name)
    ensures 1 <= |bytes| <= 2 && (|bytes| == 1 <==> bytes[0] == 0) && (|bytes| == 2 <==> bytes[0] >= 0xC0)
  {
    match name
    case Plain(_) => [0]
    case Compressed(_, pointer) => [0xC0 + pointer / 0x100, pointer % 0x100]
  }

  lemma SkipEncodedName(packet: seq<Byte>, pos: nat, name: Name)
    requires ProperName(name) && Holds(packet, pos, EncodeName(name))
    ensures NameEnd(packet, pos) == Some(pos + |EncodeName(name)|)
  {
    var written, end := WriteLabels(name.labels), NameTerminator(name);
    assert EncodeName(name) == written + end;
    HoldsParts(packet, pos, written, end);
    SkipLabels(packet, pos, name.labels);
    assert packet[pos + |written| + 0] == end[0];
  }

  /** The query's name ends exactly at its QTYPE. */
  lemma SkipNameFindsQtype(id: Word, labels: seq<Label>, qtype: Word, qclass: Word)
    requires ProperLabels(labels)
    ensures var query := QueryBytes(id, labels, qtype, qclass);
            && NameEnd(query, 12) == Some(|query| - 4)
            && query[|query| - 4..] == BigEndian(qtype) + BigEndian(qclass)
  {
    hide EncodeName, NameEnd, ProperLabels, Header, QueryBytes, BigEndian, Holds;
    var query := QueryBytes(id, labels, qtype, qclass);
    var name := EncodeName(Plain(labels));
    var types := BigEndian(qtype) + BigEndian(qclass);
    var header := Header(id, 0x0100, 1, 0, 0, 0);
    QueryParts(id, labels, qtype, qclass);
    HoldsWhole(query);
    HoldsParts(query, 0, header, name + types);
    HoldsParts(query, 12, name, types);
    SkipEncodedName(query, 12, Plain(labels));
    TailOf(header, name, types);
  }

  lemma QueryParts(id: Word, labels: seq<Label>, qtype: Word, qclass: Word)
    requires ProperLabels(labels)
    ensures QueryBytes(id, labels, qtype, qclass) ==
            Header(id, 0x0100, 1, 0, 0, 0) + (EncodeName(Plain(labels)) + (BigEndian(qtype) + BigEndian(qclass)))
  {
    hide Header, BigEndian, WriteLabels;
    Associative(WriteLabels(labels), [0], BigEndian(qtype) + BigEndian(qclass));
  }

  lemma HoldsWhole(packet: seq<Byte>)
    ensures Holds(packet, 0, packet)
  {
  }

  lemma TailOf(a: seq<Byte>, b: seq<Byte>, c: seq<Byte>)
    ensures (a + (b + c))[|a| + |b|..] == c
  {
  }

  /** The labels of the name at `pos`, cut out by their length bytes; a pointer or a torn label gives none. */
  function LabelsAt(packet: seq<Byte>, pos: nat): Option<seq<Label>>
    decreases |packet| - pos
  {
    if pos >= |packet| || packet[pos] >= 0xC0 || pos + 1 + packet[pos] > |packet| then None
    else if packet[pos] == 0 then Some([])
    else
      match LabelsAt(packet, pos + 1 + packet[pos])
      case None => None
      case Some(rest) => Some([packet[pos + 1..pos + 1 + packet[pos]]] + rest)
  }

  /** Written labels are read back by their length bytes exactly when every one has 1 to 63 bytes. */
  lemma {:induction false} LabelsReadBackIff(packet: seq<Byte>, pos: nat, labels: seq<Label>)
    requires Holds(packet, pos, WriteLabels(labels) + [0])
    ensures LabelsAt(packet, pos) == Some(labels) <==> ProperLabels(labels)
    decreases |labels|
  {
    if labels == [] {
      assert (WriteLabels(labels) + [0])[0] == 0;
      assert packet[pos + 0] == 0;
    } else {
      var first, rest := WriteLabel(labels[0]), WriteLabels(labels[1..]) + [0];
      Associative(first, WriteLabels(labels[1..]), [0]);
      HoldsParts(packet, pos, first, rest);
      assert packet[pos + 0] == first[0];
      LabelsReadBackIff(packet, pos + |first|, labels[1..]);
      FirstLabelReadBack(packet, pos, labels[0]);
      assert ProperLabels(labels) <==> ProperLabel(labels[0]) && ProperLabels(labels[1..]);
      assert [labels[0]] + labels[1..] == labels;
      var got := LabelsAt(packet, pos);
      if ProperLabel(labels[0]) {
        var next := LabelsAt(packet, pos + |first|);
        if next.Some? {
          assert got == Some([labels[0]] + next.value) && got.value[1..] == next.value;
        }
      } else {
        assert got.Some? && got.value != [] ==> |got.value[0]| == packet[pos];
      }
    }
  }

  /** What is read at a written label: the label itself if it is proper, a cut one or none otherwise. */
  lemma FirstLabelReadBack(packet: seq<Byte>, pos: nat, part: Label)
    requires Holds(packet, pos, WriteLabel(part))
    ensures var n: nat := packet[pos];
            && (n == |part| <==> |part| <= 63) && (n == 0 <==> part == []) && n <= |part| && n < 0xC0
            && pos + 1 + n <= |packet| && packet[pos + 1..pos + 1 + n] == part[..n]
            && (n == |part| ==> part[..n] == part)
  {
    var written := WriteLabel(part);
    assert packet[pos + 0] == written[0];
    var n: nat := packet[pos];
    HoldsInside(packet, pos, written, 1, 1 + n);
    assert written[1..1 + n] == part[..n];
  }

  /** So the query names what was asked for exactly when the dotted name has only such labels. */
  lemma QueryNamesLabelsIff(id: Word, labels: seq<Label>, qtype: Word, qclass: Word)
    ensures LabelsAt(QueryBytes(id, labels, qtype, qclass), 12) == Some(labels) <==> ProperLabels(labels)
  {
    hide LabelsAt, ProperLabels, Header, BigEndian, WriteLabels, Holds;
    var query := QueryBytes(id, labels, qtype, qclass);
    var header, types := Header(id, 0x0100, 1, 0, 0, 0), BigEndian(qtype) + BigEndian(qclass);
    var name := WriteLabels(labels) + [0];
    Associative(WriteLabels(labels), [0], types);
    assert query == header + (name + types);
    HoldsWhole(query);
    HoldsParts(query, 0, header, name + types);
    HoldsParts(query, 12, name, types);
    LabelsReadBackIff(query, 12, labels);
  }

  /**
   * The end of the name is no test of that. Behind a label of 64 bytes `a` the walker runs off the
   * packet; behind one of 161 it happens to land on the root byte, and still reads other labels.
   */
  lemma LongLabels(id: Word, part: Label, qtype: Word, qclass: Word)
    requires forall i :: 0 <= i < |part| ==> part[i] == 0x61
    ensures var query := QueryBytes(id, [part], qtype, qclass);
            && (|part| == 64 ==> NameEnd(query, 12) == None)
            && (|part| == 161 ==> NameEnd(query, 12) == Some(|query| - 4) && LabelsAt(query, 12) != Some([part]))
  {
    if |part| >= 64 {
      OneLongLabel(id, part, qtype, qclass);
      QueryNamesLabelsIff(id, [part], qtype, qclass);
      assert [part][0] == part && !ProperLabel(part);
    }
  }

  lemma OneLongLabel(id: Word, part: Label, qtype: Word, qclass: Word)
    requires 64 <= |part| && part[63] == 0x61
    ensures var query := QueryBytes(id, [part], qtype, qclass);
            && |query| == 18 + |part|
            && NameEnd(query, 12) == NameEnd(query, 174) && (|part| == 161 ==> query[174] == 0)
  {
    var query := QueryBytes(id, [part], qtype, qclass);
    var types := BigEndian(qtype) + BigEndian(qclass);
    var header := Header(id, 0x0100, 1, 0, 0, 0);
    assert WriteLabels([part]) == WriteLabel(part) + [];
    assert query == header + (WriteLabel(part) + ([0] + types));
    assert query[12] == WriteLabel(part)[0] == 63;
    assert query[76] == WriteLabel(part)[64] == 0x61;
    assert |part| == 161 ==> query[174] == ([0] + types)[0];
  }

  /** The query is the message of RFC 1035 with the one question, recursion desired, and no other record. */
  lemma QueryIsOneQuestion(id: Word, labels: seq<Label>, qtype: Word, qclass: Word)
    requires ProperLabels(labels)
    ensures var m := Message(id, 0x0100, [Question(Plain(labels), qtype, qclass)], [], 0, 0, []);
            ProperMessage(m) && QueryBytes(id, labels, qtype, qclass) == EncodeMessage(m)
  {
    var q := Question(Plain(labels), qtype, qclass);
    var types := BigEndian(qtype) + BigEndian(qclass);
    QueryParts(id, labels, qtype, qclass);
    hide BigEndian, Header, EncodeName;
    assert EncodeQuestions([q]) == EncodeQuestion(q) + EncodeQuestions([]) == EncodeName(q.name) + types;
    assert EncodeRecords([]) + [] == [];
  }

  /** Every name is the join of the labels it splits into. */
  lemma {:induction false} JoinSplit(name: seq<Byte>)
    ensures Split(name) != [] && Join(Split(name)) == name
  {
    if name != [] {
      JoinSplit(name[1..]);
      assert [name[0]] + name[1..] == name;
    }
  }

  /** What the walker does on one written question. */
  lemma SkipOne(packet: seq<Byte>, pos: nat, q: Question, count: nat)
    requires ProperName(q.name) && Holds(packet, pos, EncodeQuestion(q)) && count > 0
    ensures QuestionsEnd(packet, pos, count) == QuestionsEnd(packet, pos + |EncodeQuestion(q)|, count - 1)
  {
    hide EncodeName, NameEnd, ProperName, BigEndian;
    HoldsParts(packet, pos, EncodeName(q.name), BigEndian(q.qtype) + BigEndian(q.qclass));
    SkipEncodedName(packet, pos, q.name);
  }

  lemma {:induction false} SkipQuestions(packet: seq<Byte>, pos: nat, qs: seq<Question>)
    requires ProperQuestions(qs) && Holds(packet, pos, EncodeQuestions(qs))
    ensures QuestionsEnd(packet, pos, |qs|) == Some(pos + |EncodeQuestions(qs)|)
    decreases |qs|
  {
    hide EncodeQuestion, Holds, ProperName;
    if qs != [] {
      HoldsParts(packet, pos, EncodeQuestion(qs[0]), EncodeQuestions(qs[1..]));
      SkipOne(packet, pos, qs[0], |qs|);
      SkipQuestions(packet, pos + |EncodeQuestion(qs[0])|, qs[1..]);
    }
  }

  /** One answer: its name, type and length are found where they were written. */
  lemma ReadRecord(packet: seq<Byte>, pos: nat, r: Record)
    requires ProperRecord(r) && Holds(packet, pos, EncodeRecord(r))
    ensures var end := pos + |EncodeName(r.owner)|;
            && NameEnd(packet, pos) == Some(end)
            && end + 10 + |r.rdata| == pos + |EncodeRecord(r)| <= |packet|
            && WordOf(packet[end], packet[end + 1]) == r.rtype
            && WordOf(packet[end + 8], packet[end + 9]) == |r.rdata|
            && Holds(packet, end + 10, r.rdata)
  {
    hide EncodeName, NameEnd, ProperName;
    var name, fixed := EncodeName(r.owner), EncodeFixed(r);
    var end := pos + |name|;
    HoldsParts(packet, pos, name, fixed + r.rdata);
    SkipEncodedName(packet, pos, r.owner);
    HoldsParts(packet, end, fixed, r.rdata);
    assert packet[end + 0] == fixed[0] && packet[end + 1] == fixed[1];
    assert packet[end + 8] == fixed[8] && packet[end + 9] == fixed[9];
  }

  function AsWalk(found: Option<seq<Byte>>): Walk {
    match found
    case None => Nothing
    case Some(bytes) => Text(bytes)
  }

  /** What the walker does on one written answer. */
  lemma WalkOne(packet: seq<Byte>, pos: nat, r: Record, count: nat)
    requires ProperRecord(r) && Holds(packet, pos, EncodeRecord(r)) && count > 0
    ensures WalkAnswers(packet, pos, count) ==
            if r.rtype != TXT then WalkAnswers(packet, pos + |EncodeRecord(r)|, count - 1)
            else if r.rdata[0] == 0 then Nothing
            else Text(r.rdata[1..1 + r.rdata[0]])
  {
    hide EncodeName, EncodeFixed, NameEnd, ProperName;
    ReadRecord(packet, pos, r);
    if r.rtype == TXT {
      var data := pos + |EncodeName(r.owner)| + 10;
      var length: nat := r.rdata[0];
      assert packet[data + 0] == r.rdata[0];
      HoldsInside(packet, data, r.rdata, 1, 1 + length);
    }
  }

  lemma {:induction false} WalkEncodedAnswers(packet: seq<Byte>, pos: nat, rs: seq<Record>)
    requires ProperRecords(rs) && Holds(packet, pos, EncodeRecords(rs))
    ensures WalkAnswers(packet, pos, |rs|) == AsWalk(FirstTxt(rs))
    decreases |rs|
  {
    hide EncodeRecord, Holds, ProperRecord, ProperName;
    if rs != [] {
      HoldsParts(packet, pos, EncodeRecord(rs[0]), EncodeRecords(rs[1..]));
      WalkOne(packet, pos, rs[0], |rs|);
      if rs[0].rtype != TXT {
        WalkEncodedAnswers(packet, pos + |EncodeRecord(rs[0])|, rs[1..]);
      }
    }
  }

  lemma HeaderCounts(packet: seq<Byte>, id: Word, flags: Word, qdcount: Word, ancount: Word, nscount: Word, arcount: Word)
    requires Holds(packet, 0, Header(id, flags, qdcount, ancount, nscount, arcount))
    ensures |packet| >= 12
    ensures WordOf(packet[4], packet[5]) == qdcount && WordOf(packet[6], packet[7]) == ancount
  {
    var header := Header(id, flags, qdcount, ancount, nscount, arcount);
    assert packet[0 + 4] == header[4] == BigEndian(qdcount)[0] && packet[0 + 5] == header[5] == BigEndian(qdcount)[1];
    assert packet[0 + 6] == header[6] == BigEndian(ancount)[0] && packet[0 + 7] == header[7] == BigEndian(ancount)[1];
  }

  /**
   * On every encoded message, plain or compressed names, any sections before and after, the walker
   * finds exactly the first TXT string of the answers, and never reads past the packet.
   */
  lemma WalkReadsFirstTxt(m: Message)
    requires ProperMessage(m)
    ensures WalkPacket(EncodeMessage(m)) == AsWalk(FirstTxt(m.answers))
  {
    hide Header, EncodeQuestions, EncodeRecords, ProperQuestions, ProperRecords, QuestionsEnd, FirstTxt;
    var packet := EncodeMessage(m);
    var header := Header(m.id, m.flags, |m.questions|, |m.answers|, m.nscount, m.arcount);
    var questions, answers := EncodeQuestions(m.questions), EncodeRecords(m.answers);
    assert Holds(packet, 0, header + (questions + (answers + m.tail)));
    HoldsParts(packet, 0, header, questions + (answers + m.tail));
    HoldsParts(packet, 12, questions, answers + m.tail);
    HoldsParts(packet, 12 + |questions|, answers, m.tail);
    HeaderCounts(packet, m.id, m.flags, |m.questions|, |m.answers|, m.nscount, m.arcount);
    SkipQuestions(packet, 12, m.questions);
    WalkEncodedAnswers(packet, 12 + |questions|, m.answers);
  }
}
