/** DNS messages written without compression, the plainest octets that the reader of
    deploy/ipsec/gcp-cloud-dns-wire-probe.py takes. */
module DnsWriter {
  import opened Bytes
  import opened DnsName
  import opened DnsMessage
  import opened Splits

  // ---------- messages written without pointers ----------

  // The text that a written name is read as.
  function Canonical(name: string): string { Lower(Stripped(name)) + "." }

  function RecordRead(r: Record): Record {
    r.(owner := Canonical(r.owner), rdata := if r.rdata.Alias? then Alias(Canonical(r.rdata.target)) else r.rdata)
  }

  function RecordsRead(rs: seq<Record>): seq<Record> {
    if rs == [] then [] else [RecordRead(rs[0])] + RecordsRead(rs[1..])
  }

  // The message that is read when this one was written.
  function MessageRead(m: Message): Message {
    m.(name := Canonical(m.name), answers := RecordsRead(m.answers), authority := RecordsRead(m.authority),
       additional := RecordsRead(m.additional))
  }

  predicate Nameable(name: string) { WireName(name).Some? && |Split(Stripped(name), '.')| <= 127 }

  predicate Writable(r: Record) {
    && r.kind < 65536 && r.cls < 65536 && r.ttl < 65536 * 65536
    && Nameable(r.owner) && (r.rdata.Alias? ==> Nameable(r.rdata.target)) && |RdataBytes(r.rdata)| < 65536
  }

  function RdataBytes(rdata: Rdata): seq<byte>
    requires rdata.Alias? ==> Nameable(rdata.target)
  {
    match rdata
    case Raw(bytes) => bytes
    case Alias(target) => WireName(target).value
  }

  function EncodeRecord(r: Record): seq<byte>
    requires Writable(r)
  {
    WireName(r.owner).value + Fixed(r.kind, r.cls, r.ttl, |RdataBytes(r.rdata)|) + RdataBytes(r.rdata)
  }

  function EncodeRecords(rs: seq<Record>): seq<byte>
    requires forall i | 0 <= i < |rs| :: Writable(rs[i])
  {
    if rs == [] then [] else EncodeRecord(rs[0]) + EncodeRecords(rs[1..])
  }

  predicate MessageWritable(m: Message) {
    MessageOk(m) && Nameable(m.name) && forall i | 0 <= i < |Records(m)| :: Writable(Records(m)[i])
  }

  function Encode(m: Message): seq<byte>
    requires MessageWritable(m)
  {
    Header(m.id, m.flags, |m.answers|, |m.authority|, |m.additional|)
    + (WireName(m.name).value + IN_A + EncodeRecords(Records(m)))
  }

  lemma WritesName(data: seq<byte>, p: nat, name: string, end: nat)
    requires p <= |data| && Nameable(name) && WireName(name).value <= data[p..] && end == p + |WireName(name).value|
    ensures NameHere(data, p, Canonical(name), end)
  {
    DecodesQuestion(data, p, name);
  }

  lemma Parts(data: seq<byte>, p: nat, x: seq<byte>, y: seq<byte>, z: seq<byte>)
    requires p <= |data| && x + y + z <= data[p..]
    ensures var h := p + |x|; var g := h + |y|; var e := g + |z|;
            e <= |data| && x <= data[p..] && data[h..g] == y && data[g..e] == z && z <= data[g..]
  {
  }

  lemma WritesBody(data: seq<byte>, h: nat, r: Record, end: nat)
    requires Writable(r) && h + 10 <= end <= |data| && end == h + 10 + |RdataBytes(r.rdata)|
    requires data[h..h + 10] == Fixed(r.kind, r.cls, r.ttl, |RdataBytes(r.rdata)|)
    requires data[h + 10..end] == RdataBytes(r.rdata) <= data[h + 10..]
    ensures BodyHere(data, h, RecordRead(r), end)
  {
    if r.rdata.Alias? { WritesName(data, h + 10, r.rdata.target, end); }
  }

  lemma RecordParts(data: seq<byte>, p: nat, wire: seq<byte>, fixed: seq<byte>, body: seq<byte>, h: nat, end: nat)
    requires p <= |data| && wire + fixed + body <= data[p..] && |fixed| == 10 && h == p + |wire| && end == h + 10 + |body|
    ensures end <= |data| && wire <= data[p..] && data[h..h + 10] == fixed && data[h + 10..end] == body <= data[h + 10..]
  {
    Parts(data, p, wire, fixed, body);
  }

  lemma WritesRecord(data: seq<byte>, p: nat, r: Record, end: nat)
    requires p <= |data| && Writable(r) && EncodeRecord(r) <= data[p..] && end == p + |EncodeRecord(r)|
    ensures RecordHere(data, p, RecordRead(r), end)
  {
    var wire, body := WireName(r.owner).value, RdataBytes(r.rdata);
    var h := p + |wire|;
    RecordParts(data, p, wire, Fixed(r.kind, r.cls, r.ttl, |body|), body, h, end);
    WritesParts(data, p, r, h, end);
  }

  lemma WritesParts(data: seq<byte>, p: nat, r: Record, h: nat, end: nat)
    requires p <= |data| && Writable(r) && WireName(r.owner).value <= data[p..] && h == p + |WireName(r.owner).value|
    requires h + 10 <= end <= |data| && end == h + 10 + |RdataBytes(r.rdata)|
    requires data[h..h + 10] == Fixed(r.kind, r.cls, r.ttl, |RdataBytes(r.rdata)|)
    requires data[h + 10..end] == RdataBytes(r.rdata) <= data[h + 10..]
    ensures RecordHere(data, p, RecordRead(r), end)
  {
    WritesName(data, p, r.owner, h);
    WritesBody(data, h, r, end);
  }

  lemma Tail(data: seq<byte>, p: nat, x: seq<byte>, y: seq<byte>, q: nat)
    requires p <= |data| && data[p..] == x + y && q == p + |x|
    ensures x <= data[p..] && q <= |data| && data[q..] == y
  {
  }

  lemma {:induction false} WritesRecords(data: seq<byte>, p: nat, rs: seq<Record>)
    requires p <= |data| && (forall i | 0 <= i < |rs| :: Writable(rs[i])) && data[p..] == EncodeRecords(rs)
    ensures RecordsHere(data, p, RecordsRead(rs))
    decreases |rs|
  {
    if rs != [] {
      var end := p + |EncodeRecord(rs[0])|;
      Tail(data, p, EncodeRecord(rs[0]), EncodeRecords(rs[1..]), end);
      WritesRecord(data, p, rs[0], end);
      WritesRecords(data, end, rs[1..]);
      FirstRecordHere(data, p, RecordsRead(rs), end);
    }
  }

  lemma HeaderFirst(header: seq<byte>, wire: seq<byte>, rest: seq<byte>)
    requires |header| == 12
    ensures var data, q := header + (wire + IN_A + rest), 12 + |wire|;
            && data[..12] == header && q + 4 <= |data| && wire <= data[12..] && data[q..q + 4] == IN_A && data[q + 4..] == rest
  {
  }

  lemma EncodeParts(m: Message) returns (q: nat)
    requires MessageWritable(m)
    ensures var data := Encode(m);
            && |data| >= 12 && data[..12] == Header(m.id, m.flags, |m.answers|, |m.authority|, |m.additional|)
            && q == 12 + |WireName(m.name).value| && q + 4 <= |data| && WireName(m.name).value <= data[12..]
            && data[q..q + 4] == IN_A && data[q + 4..] == EncodeRecords(Records(m))
  {
    var header := Header(m.id, m.flags, |m.answers|, |m.authority|, |m.additional|);
    q := 12 + |WireName(m.name).value|;
    HeaderFirst(header, WireName(m.name).value, EncodeRecords(Records(m)));
  }

  lemma CarriesParts(data: seq<byte>, m: Message, q: nat)
    requires MessageWritable(m) && |data| >= 12
    requires data[..12] == Header(m.id, m.flags, |m.answers|, |m.authority|, |m.additional|)
    requires q == 12 + |WireName(m.name).value| && q + 4 <= |data| && WireName(m.name).value <= data[12..]
    requires data[q..q + 4] == IN_A && data[q + 4..] == EncodeRecords(Records(m))
    ensures MessageOk(MessageRead(m)) && Carries(data, MessageRead(m))
  {
    ReadMessageOk(m);
    BodyParts(data, m, q);
  }

  lemma BodyParts(data: seq<byte>, m: Message, q: nat)
    requires MessageWritable(m) && |data| >= 12
    requires q == 12 + |WireName(m.name).value| && q + 4 <= |data| && WireName(m.name).value <= data[12..]
    requires data[q..q + 4] == IN_A && data[q + 4..] == EncodeRecords(Records(m))
    ensures BodyCarried(data, MessageRead(m), q)
  {
    WritesName(data, 12, m.name, q);
    WritesRecords(data, q + 4, Records(m));
    ReadMessageOk(m);
  }

  lemma {:induction false} ReadAppend(a: seq<Record>, b: seq<Record>)
    ensures RecordsRead(a + b) == RecordsRead(a) + RecordsRead(b) && |RecordsRead(a)| == |a|
    decreases |a|
  {
    if a == [] {
      assert a + b == b;
    } else {
      assert (a + b)[1..] == a[1..] + b;
      ReadAppend(a[1..], b);
    }
  }

  lemma {:induction false} ReadRecordsOk(rs: seq<Record>, an: nat)
    requires RecordsOk(rs, an)
    ensures RecordsOk(RecordsRead(rs), an)
    decreases |rs|
  {
    if rs != [] {
      ReadRecordsOk(rs[1..], Less(an));
      assert RecordsRead(rs)[1..] == RecordsRead(rs[1..]);
    }
  }

  lemma ReadMessageOk(m: Message)
    requires MessageOk(m)
    ensures MessageOk(MessageRead(m)) && Records(MessageRead(m)) == RecordsRead(Records(m))
    ensures var n := MessageRead(m);
            |n.answers| == |m.answers| && |n.authority| == |m.authority| && |n.additional| == |m.additional|
  {
    ReadAppend(m.answers, m.authority);
    ReadAppend(m.answers + m.authority, m.additional);
    ReadAppend(m.authority, []);
    ReadAppend(m.additional, []);
    ReadRecordsOk(Records(m), |m.answers|);
  }

  /** A message written without pointers carries what it was written for; so it is read back. */
  lemma EncodeCarries(m: Message)
    requires MessageWritable(m)
    ensures MessageOk(MessageRead(m)) && Carries(Encode(m), MessageRead(m))
  {
    var q := EncodeParts(m);
    CarriesParts(Encode(m), m, q);
  }
}
