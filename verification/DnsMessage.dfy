/** DNS responses: response and validate_answers of
    deploy/ipsec/gcp-cloud-dns-wire-probe.py, against sections 4.1.1 to 4.1.3 of RFC 1035. */
module DnsMessage {
  import opened Bytes
  import opened DnsName
  import opened Splits

  type Address = seq<byte>

  // What one resource record contributes; Skipped is a record that is read and ignored.
  datatype Entry =
    | A(owner: string, address: Address)
    | Cname(owner: string, target: string)
    | Other(owner: string, kind: nat)
    | Skipped

  datatype Reply = Reply(id: nat, question: string, rcode: nat, tc: bool, answerCount: nat,
                         a: seq<(string, Address)>, cname: seq<(string, string)>, other: seq<(string, nat)>)

  function Word(data: seq<byte>, p: nat): nat
    requires p + 2 <= |data|
  {
    U16(data[p], data[p + 1])
  }

  // ---------- the meaning of a response ----------

  // The record at p and the position after it; answer says that it is in the answer section.
  ghost function RecordAt(data: seq<byte>, p: nat, answer: bool): (r: Option<(Entry, nat)>)
    ensures r.Some? ==> p < r.value.1 <= |data|
  {
    match NameAt(data, p)
    case None => None
    case Some((owner, h)) => BodyEntry(data, owner, h, answer, NameAt(data, h + 10))
  }

  // The same from its fixed part at h on; target is the name that starts its data.
  function BodyEntry(data: seq<byte>, owner: string, h: nat, answer: bool, target: Option<(string, nat)>): (r: Option<(Entry, nat)>)
    ensures r.Some? ==> h < r.value.1 <= |data|
  {
    if h + 10 > |data| then None else
    var kind, cls, next := Word(data, h), Word(data, h + 2), h + 10 + Word(data, h + 8);
    if next > |data| then None
    else if !answer || cls != 1 then Some((Skipped, next))
    else if kind == 1 then
      if next != h + 14 then None else Some((A(owner, data[h + 10..next]), next))
    else if kind == 5 then
      match target
      case None => None
      case Some((text, end)) => if end != next then None else Some((Cname(owner, text), next))
    else Some((Other(owner, kind), next))
  }

  // count records from p on, the first an of them answers.
  ghost function RecordsAt(data: seq<byte>, p: nat, count: nat, an: nat): (r: Option<(seq<Entry>, nat)>)
    ensures r.Some? ==> |r.value.0| == count
    decreases count
  {
    if count == 0 then Some(([], p)) else
    match RecordAt(data, p, an > 0)
    case None => None
    case Some((entry, next)) => Prefixed([entry], RecordsAt(data, next, count - 1, Less(an)))
  }

  function Less(an: nat): nat { if an > 0 then an - 1 else 0 }

  function Prefixed(done: seq<Entry>, rest: Option<(seq<Entry>, nat)>): Option<(seq<Entry>, nat)> {
    match rest
    case None => None
    case Some((es, end)) => Some((done + es, end))
  }

  function As(es: seq<Entry>): seq<(string, Address)> {
    if es == [] then [] else As(es[..|es| - 1]) + (var e := es[|es| - 1]; if e.A? then [(e.owner, e.address)] else [])
  }

  function Cnames(es: seq<Entry>): seq<(string, string)> {
    if es == [] then [] else Cnames(es[..|es| - 1]) + (var e := es[|es| - 1]; if e.Cname? then [(e.owner, e.target)] else [])
  }

  function Others(es: seq<Entry>): seq<(string, nat)> {
    if es == [] then [] else Others(es[..|es| - 1]) + (var e := es[|es| - 1]; if e.Other? then [(e.owner, e.kind)] else [])
  }

  // The question section is answered, in the header's flags, for this identifier.
  predicate HeaderOk(data: seq<byte>, id: nat) {
    && |data| >= 12
    && Word(data, 0) == id
    && var flags := Word(data, 2);
       flags / 0x8000 == 1 && flags / 0x800 % 16 == 0 && Word(data, 4) == 1
  }

  function Head(data: seq<byte>, question: string): Reply
    requires |data| >= 12
  {
    var flags := Word(data, 2);
    Reply(Word(data, 0), question, flags % 16, flags / 0x200 % 2 == 1, Word(data, 6), [], [], [])
  }

  // The position of the first record, when header and question are the expected ones.
  ghost function BodyAt(data: seq<byte>, id: nat, name: string): (r: Option<nat>)
    ensures r.Some? ==> 12 < r.value <= |data|
  {
    if !HeaderOk(data, id) then None else
    match NameAt(data, 12)
    case None => None
    case Some((q, p)) =>
      if q != Lower(name) || p + 4 > |data| || data[p..p + 4] != [0, 1, 0, 1] then None else Some(p + 4)
  }

  function RecordCount(data: seq<byte>): nat
    requires |data| >= 12
  {
    Word(data, 6) + Word(data, 8) + Word(data, 10)
  }

  // All records of the message: they must use up the data exactly.
  ghost function Entries(data: seq<byte>, p: nat): Option<seq<Entry>>
    requires |data| >= 12
  {
    match RecordsAt(data, p, RecordCount(data), Word(data, 6))
    case None => None
    case Some((es, end)) => if end != |data| then None else Some(es)
  }

  ghost function Meaning(data: seq<byte>, id: nat, name: string, full: bool): Option<Reply> {
    match BodyAt(data, id, name)
    case None => None
    case Some(p) =>
      var head := Head(data, Lower(name));
      if !full then Some(head)
      else if head.tc then None
      else
        match Entries(data, p)
        case None => None
        case Some(es) => Some(Filled(head, es))
  }

  function Filled(head: Reply, es: seq<Entry>): Reply {
    head.(a := As(es), cname := Cnames(es), other := Others(es))
  }

  // ---------- response ----------

  method ReadRecord(data: seq<byte>, p: nat, answer: bool) returns (result: Option<(Entry, nat)>)
    ensures result == RecordAt(data, p, answer)
  {
    var name := DecodeName(data, p);
    if name == None { return None; }
    result := ReadBody(data, name.value.0, name.value.1, answer);
  }

  method ReadBody(data: seq<byte>, owner: string, h: nat, answer: bool) returns (result: Option<(Entry, nat)>)
    ensures result == BodyEntry(data, owner, h, answer, NameAt(data, h + 10))
  {
    if h + 10 > |data| { return None; }
    var kind, cls, end := Word(data, h), Word(data, h + 2), h + 10 + Word(data, h + 8);
    if end > |data| { return None; }
    if !answer || cls != 1 { return Some((Skipped, end)); }
    if kind == 1 {
      if end != h + 14 { return None; }
      return Some((A(owner, data[h + 10..end]), end));
    }
    if kind != 5 { return Some((Other(owner, kind), end)); }
    var target := DecodeName(data, h + 10);
    if target == None || target.value.1 != end { return None; }
    return Some((Cname(owner, target.value.0), end));
  }

  lemma NothingDone(all: Option<(seq<Entry>, nat)>)
    ensures all == Prefixed([], all)
  {
    if all.Some? { assert [] + all.value.0 == all.value.0; }
  }

  // The header test and the question: the position of the first record.
  method ReadQuestion(data: seq<byte>, id: nat, name: string) returns (p: Option<nat>)
    ensures p == BodyAt(data, id, name)
  {
    if !HeaderOk(data, id) { return None; }
    var q := DecodeName(data, 12);
    if q == None { return None; }
    var (text, end) := q.value;
    if text != Lower(name) || end + 4 > |data| || data[end..end + 4] != [0, 1, 0, 1] { return None; }
    return Some(end + 4);
  }

  method Response(data: seq<byte>, id: nat, name: string, full: bool) returns (result: Option<Reply>)
    ensures result == Meaning(data, id, name, full)
  {
    var p := ReadQuestion(data, id, name);
    if p == None { return None; }
    var out := Head(data, Lower(name));
    if !full { return Some(out); }
    if out.tc { return None; }
    result := ReadRecords(data, p.value, out, Word(data, 6), RecordCount(data));
  }

  lemma AllDone(all: Option<(seq<Entry>, nat)>, done: seq<Entry>, p: nat)
    requires all == Prefixed(done, Some(([], p)))
    ensures all == Some((done, p))
  {
    assert done + [] == done;
  }

  function Add(out: Reply, entry: Entry): Reply {
    match entry
    case A(owner, address) => out.(a := out.a + [(owner, address)])
    case Cname(owner, target) => out.(cname := out.cname + [(owner, target)])
    case Other(owner, kind) => out.(other := out.other + [(owner, kind)])
    case Skipped => out
  }

  // One turn of the record loop: what the record at p adds to those read so far, and where
  // the next one starts.
  method AddRecord(data: seq<byte>, p: nat, answer: bool, out: Reply, ghost head: Reply, ghost done: seq<Entry>, ghost count: nat,
                   ghost an: nat)
    returns (next: Option<(Reply, nat)>, ghost more: seq<Entry>)
    requires count > 0 && out == Filled(head, done) && answer == (an > 0)
    ensures next == None ==> Prefixed(done, RecordsAt(data, p, count, an)) == None
    ensures next.Some? ==>
              && next.value.1 <= |data| && next.value.0 == Filled(head, more)
              && Prefixed(done, RecordsAt(data, p, count, an)) == Prefixed(more, RecordsAt(data, next.value.1, count - 1, Less(an)))
  {
    more := done;
    var record := ReadRecord(data, p, answer);
    if record == None { return None, more; }
    var (entry, end) := record.value;
    more := RecordStep(data, p, count, an, head, done, entry, end);
    return Some((Add(out, entry), end)), more;
  }

  // The record loop: out grows by what each record contributes.
  method ReadRecords(data: seq<byte>, start: nat, head: Reply, an: nat, count: nat) returns (result: Option<Reply>)
    requires start <= |data| && head.a == [] && head.cname == [] && head.other == []
    ensures result == match RecordsAt(data, start, count, an)
                      case None => None
                      case Some((es, end)) => if end != |data| then None else Some(Filled(head, es))
  {
    var p: nat, out := start, head;
    ghost var done: seq<Entry>, left: nat, togo: nat := [], an, count;
    ghost var all := RecordsAt(data, p, count, an);
    NothingDone(all);
    for index := 0 to count
      invariant p <= |data| && togo == count - index && left == if index < an then an - index else 0
      invariant out == Filled(head, done)
      invariant all == Prefixed(done, RecordsAt(data, p, togo, left))
    {
      var next;
      ghost var more;
      next, more := AddRecord(data, p, index < an, out, head, done, togo, left);
      if next == None { return None; }
      out, p := next.value.0, next.value.1;
      done, left, togo := more, Less(left), togo - 1;
    }
    AllDone(all, done, p);
    if p != |data| { return None; }
    return Some(out);
  }

  lemma RecordStep(data: seq<byte>, p: nat, count: nat, an: nat, head: Reply, done: seq<Entry>, entry: Entry, end: nat)
    returns (more: seq<Entry>)
    requires count > 0 && RecordAt(data, p, an > 0) == Some((entry, end))
    ensures Filled(head, more) == Add(Filled(head, done), entry)
    ensures Prefixed(done, RecordsAt(data, p, count, an)) == Prefixed(more, RecordsAt(data, end, count - 1, Less(an)))
  {
    more := done + [entry];
    Appended(head, done, entry);
    var rest := RecordsAt(data, end, count - 1, Less(an));
    if rest.Some? { Assoc(done, [entry], rest.value.0); }
  }

  lemma Appended(head: Reply, es: seq<Entry>, e: Entry)
    ensures Filled(head, es + [e]) == Add(Filled(head, es), e)
  {
  }

  // ---------- an accepted message ends exactly where its records do ----------

  lemma {:induction false} DenotesMore(data: seq<byte>, more: seq<byte>, pos: nat, steps: nat, labels: seq<Label>)
    requires Denotes(data, pos, steps, labels)
    ensures Denotes(data + more, pos, steps, labels) && EndOf(data + more, pos) == EndOf(data, pos)
    decreases steps
  {
    var n := data[pos];
    if n >= 192 {
      DenotesMore(data, more, Offset(n, data[pos + 1]), steps - 1, labels);
    } else if n > 0 {
      assert (data + more)[pos + 1..pos + 1 + n] == data[pos + 1..pos + 1 + n];
      DenotesMore(data, more, pos + 1 + n, steps - 1, labels[1..]);
    }
  }

  lemma NameAtMore(data: seq<byte>, more: seq<byte>, pos: nat)
    requires NameAt(data, pos).Some?
    ensures NameAt(data + more, pos) == NameAt(data, pos)
  {
    var steps, labels :| Named(data, pos, steps, labels);
    DenotesMore(data, more, pos, steps, labels);
    NameAtIs(data, pos, steps, labels);
    NameAtIs(data + more, pos, steps, labels);
  }

  lemma BodyEntryMore(data: seq<byte>, more: seq<byte>, owner: string, h: nat, answer: bool, target: Option<(string, nat)>)
    requires BodyEntry(data, owner, h, answer, target).Some?
    ensures BodyEntry(data + more, owner, h, answer, target) == BodyEntry(data, owner, h, answer, target)
    ensures target == None ==>
              forall t :: BodyEntry(data + more, owner, h, answer, t) == BodyEntry(data, owner, h, answer, target)
  {
    var next := BodyEntry(data, owner, h, answer, target).value.1;
    assert (data + more)[h + 10..next] == data[h + 10..next];
  }

  lemma RecordAtMore(data: seq<byte>, more: seq<byte>, p: nat, answer: bool)
    requires RecordAt(data, p, answer).Some?
    ensures RecordAt(data + more, p, answer) == RecordAt(data, p, answer)
  {
    NameAtMore(data, more, p);
    var (owner, h) := NameAt(data, p).value;
    BodyEntryMore(data, more, owner, h, answer, NameAt(data, h + 10));
    if NameAt(data, h + 10).Some? {
      NameAtMore(data, more, h + 10);
    }
  }

  lemma {:induction false} RecordsAtMore(data: seq<byte>, more: seq<byte>, p: nat, count: nat, an: nat)
    requires RecordsAt(data, p, count, an).Some?
    ensures RecordsAt(data + more, p, count, an) == RecordsAt(data, p, count, an)
    decreases count
  {
    if count > 0 {
      RecordAtMore(data, more, p, an > 0);
      RecordsAtMore(data, more, RecordAt(data, p, an > 0).value.1, count - 1, Less(an));
    }
  }

  lemma BodyAtMore(data: seq<byte>, more: seq<byte>, id: nat, name: string, id': nat, name': string)
    requires BodyAt(data, id, name).Some? && BodyAt(data + more, id', name').Some?
    ensures BodyAt(data + more, id', name') == BodyAt(data, id, name)
  {
    NameAtMore(data, more, 12);
  }

  lemma EntriesMore(data: seq<byte>, more: seq<byte>, p: nat)
    requires |data| >= 12 && Entries(data, p).Some? && more != []
    ensures Entries(data + more, p) == None
  {
    assert RecordCount(data + more) == RecordCount(data) && Word(data + more, 6) == Word(data, 6);
    RecordsAtMore(data, more, p, RecordCount(data), Word(data, 6));
  }

  /** No accepted message is a proper prefix of another accepted message, whatever name
      and identifier that one is accepted for: trailing bytes and cut messages are refused. */
  lemma AcceptedIsPrefixFree(data: seq<byte>, more: seq<byte>, id: nat, name: string, id': nat, name': string)
    requires Meaning(data, id, name, true).Some? && more != []
    ensures Meaning(data + more, id', name', true) == None
  {
    var p := BodyAt(data, id, name).value;
    EntriesMore(data, more, p);
    if BodyAt(data + more, id', name').Some? {
      BodyAtMore(data, more, id, name, id', name');
    }
  }

  // ---------- what a message says, however it is written ----------

  // The names in a message are the texts that are read: in lower case, with a dot at the end.
  datatype Rdata = Raw(bytes: seq<byte>) | Alias(target: string)
  datatype Record = Record(owner: string, kind: nat, cls: nat, ttl: nat, rdata: Rdata)
  datatype Message = Message(id: nat, flags: nat, name: string,
                             answers: seq<Record>, authority: seq<Record>, additional: seq<Record>)

  // A record whose data has the shape its type and class call for.
  predicate RecordOk(r: Record, answer: bool) {
    && r.kind < 65536 && r.cls < 65536 && r.ttl < 65536 * 65536
    && (answer && r.cls == 1 && r.kind == 1 ==> r.rdata.Raw? && |r.rdata.bytes| == 4)
    && (answer && r.cls == 1 && r.kind == 5 ==> r.rdata.Alias?)
  }

  predicate RecordsOk(rs: seq<Record>, an: nat) {
    rs == [] || (RecordOk(rs[0], an > 0) && RecordsOk(rs[1..], Less(an)))
  }

  predicate MessageOk(m: Message) {
    && m.id < 65536 && m.flags < 65536
    && |m.answers| < 65536 && |m.authority| < 65536 && |m.additional| < 65536
    && RecordsOk(Records(m), |m.answers|)
  }

  function Records(m: Message): seq<Record> { m.answers + m.authority + m.additional }

  function Fixed(kind: nat, cls: nat, ttl: nat, size: nat): (s: seq<byte>)
    requires kind < 65536 && cls < 65536 && ttl < 65536 * 65536 && size < 65536
    ensures |s| == 10 && Word(s, 0) == kind && Word(s, 2) == cls && Word(s, 8) == size
  {
    var hi, lo := ttl / 65536, ttl % 65536;
    [kind / 256, kind % 256, cls / 256, cls % 256, hi / 256, hi % 256, lo / 256, lo % 256, size / 256, size % 256]
  }

  function Header(id: nat, flags: nat, an: nat, ns: nat, ar: nat): (s: seq<byte>)
    requires id < 65536 && flags < 65536 && an < 65536 && ns < 65536 && ar < 65536
    ensures |s| == 12
    ensures Word(s, 0) == id && Word(s, 2) == flags && Word(s, 4) == 1
    ensures Word(s, 6) == an && Word(s, 8) == ns && Word(s, 10) == ar
  {
    [id / 256, id % 256, flags / 256, flags % 256, 0, 1,
     an / 256, an % 256, ns / 256, ns % 256, ar / 256, ar % 256]
  }

  const IN_A: seq<byte> := [0, 1, 0, 1]

  // The octets from p to end denote the name, with or without pointers.
  ghost predicate NameHere(data: seq<byte>, p: nat, name: string, end: nat) {
    NameAt(data, p) == Some((name, end))
  }

  // The record's fixed part, at h, and its data.
  ghost predicate BodyHere(data: seq<byte>, h: nat, r: Record, end: nat) {
    && r.kind < 65536 && r.cls < 65536 && r.ttl < 65536 * 65536 && h + 10 <= end <= |data| && end < h + 10 + 65536
    && data[h..h + 10] == Fixed(r.kind, r.cls, r.ttl, end - h - 10)
    && match r.rdata
       case Raw(bytes) => data[h + 10..end] == bytes
       case Alias(target) => NameHere(data, h + 10, target, end)
  }

  ghost predicate RecordHere(data: seq<byte>, p: nat, r: Record, end: nat) {
    exists h: nat :: NameHere(data, p, r.owner, h) && BodyHere(data, h, r, end)
  }

  // These records and nothing else up to the end of the data.
  ghost predicate RecordsHere(data: seq<byte>, p: nat, rs: seq<Record>)
    decreases |rs|
  {
    if rs == [] then p == |data|
    else exists end: nat :: RecordHere(data, p, rs[0], end) && RecordsHere(data, end, rs[1..])
  }

  /** The octets say what the message says; each of their names may be written in any way
      that section 4.1.4 of RFC 1035 allows. */
  ghost predicate Carries(data: seq<byte>, m: Message)
    requires MessageOk(m)
  {
    && |data| >= 12 && data[..12] == Header(m.id, m.flags, |m.answers|, |m.authority|, |m.additional|)
    && exists q: nat :: BodyCarried(data, m, q)
  }

  // The question's name ends at q, and the records follow the question.
  ghost predicate BodyCarried(data: seq<byte>, m: Message, q: nat) {
    NameHere(data, 12, m.name, q) && q + 4 <= |data| && data[q..q + 4] == IN_A && RecordsHere(data, q + 4, Records(m))
  }

  // What the reader reports for a record.
  function EntryOf(r: Record, answer: bool): Entry
    requires RecordOk(r, answer)
  {
    if !answer || r.cls != 1 then Skipped
    else if r.kind == 1 then A(r.owner, r.rdata.bytes)
    else if r.kind == 5 then Cname(r.owner, r.rdata.target)
    else Other(r.owner, r.kind)
  }

  function EntriesOf(rs: seq<Record>, an: nat): seq<Entry>
    requires RecordsOk(rs, an)
  {
    if rs == [] then [] else [EntryOf(rs[0], an > 0)] + EntriesOf(rs[1..], Less(an))
  }

  lemma WordInSlice(data: seq<byte>, h: nat, s: seq<byte>, i: nat)
    requires h + |s| <= |data| && data[h..h + |s|] == s && i + 2 <= |s|
    ensures Word(data, h + i) == Word(s, i)
  {
  }

  lemma ReadsBody(data: seq<byte>, h: nat, r: Record, end: nat, answer: bool)
    requires RecordOk(r, answer) && BodyHere(data, h, r, end)
    ensures BodyEntry(data, r.owner, h, answer, NameAt(data, h + 10)) == Some((EntryOf(r, answer), end))
  {
  }

  lemma ReadsRecord(data: seq<byte>, p: nat, r: Record, end: nat, answer: bool)
    requires RecordOk(r, answer) && RecordHere(data, p, r, end)
    ensures RecordAt(data, p, answer) == Some((EntryOf(r, answer), end))
  {
    var h: nat :| NameHere(data, p, r.owner, h) && BodyHere(data, h, r, end);
    ReadsBody(data, h, r, end, answer);
  }

  lemma {:induction false} ReadsRecords(data: seq<byte>, p: nat, rs: seq<Record>, an: nat)
    requires RecordsOk(rs, an) && RecordsHere(data, p, rs)
    ensures RecordsAt(data, p, |rs|, an) == Some((EntriesOf(rs, an), |data|))
    decreases |rs|
  {
    if rs != [] {
      var rest := rs[1..];
      assert |rest| == |rs| - 1;
      var end: nat :| RecordHere(data, p, rs[0], end) && RecordsHere(data, end, rest);
      ReadsRecords(data, end, rest, Less(an));
      assert RecordsAt(data, end, |rs| - 1, Less(an)) == Some((EntriesOf(rest, Less(an)), |data|));
      ReadsRecord(data, p, rs[0], end, an > 0);
      RecordsCons(data, p, |rs|, an, EntryOf(rs[0], an > 0), end, EntriesOf(rest, Less(an)), |data|);
      EntriesCons(rs, an);
    }
  }

  lemma RecordsCons(data: seq<byte>, p: nat, count: nat, an: nat, entry: Entry, next: nat, rest: seq<Entry>, end: nat)
    requires count > 0 && RecordAt(data, p, an > 0) == Some((entry, next))
    requires RecordsAt(data, next, count - 1, Less(an)) == Some((rest, end))
    ensures RecordsAt(data, p, count, an) == Some(([entry] + rest, end))
  {
  }

  lemma EntriesCons(rs: seq<Record>, an: nat)
    requires rs != [] && RecordsOk(rs, an)
    ensures EntriesOf(rs, an) == [EntryOf(rs[0], an > 0)] + EntriesOf(rs[1..], Less(an))
  {
  }

  lemma CarriedHeader(data: seq<byte>, m: Message)
    requires MessageOk(m) && Carries(data, m)
    ensures Word(data, 0) == m.id && Word(data, 2) == m.flags && Word(data, 4) == 1
    ensures Word(data, 6) == |m.answers| && RecordCount(data) == |Records(m)|
  {
    var header := Header(m.id, m.flags, |m.answers|, |m.authority|, |m.additional|);
    assert data[0..12] == header;
    WordInSlice(data, 0, header, 0);
    WordInSlice(data, 0, header, 2);
    WordInSlice(data, 0, header, 4);
    WordInSlice(data, 0, header, 6);
    WordInSlice(data, 0, header, 8);
    WordInSlice(data, 0, header, 10);
  }

  // ---------- the answers of a message, in order ----------

  // The owners and addresses of the address records of the Internet class.
  function AddressRecords(rs: seq<Record>): seq<(string, Address)>
    requires forall r | r in rs :: RecordOk(r, true)
  {
    if rs == [] then [] else
    assert rs[0] in rs && RecordOk(rs[0], true);
    (if rs[0].cls == 1 && rs[0].kind == 1 then [(rs[0].owner, rs[0].rdata.bytes)] else []) + AddressRecords(rs[1..])
  }

  // The owners and targets of its aliases.
  function AliasRecords(rs: seq<Record>): seq<(string, string)>
    requires forall r | r in rs :: RecordOk(r, true)
  {
    if rs == [] then [] else
    assert rs[0] in rs && RecordOk(rs[0], true);
    (if rs[0].cls == 1 && rs[0].kind == 5 then [(rs[0].owner, rs[0].rdata.target)] else []) + AliasRecords(rs[1..])
  }

  // The owners and types of all others of this class.
  function OtherRecords(rs: seq<Record>): seq<(string, nat)> {
    if rs == [] then [] else
    (if rs[0].cls == 1 && rs[0].kind != 1 && rs[0].kind != 5 then [(rs[0].owner, rs[0].kind)] else []) + OtherRecords(rs[1..])
  }

  lemma {:induction false} AsAppend(a: seq<Entry>, b: seq<Entry>)
    ensures As(a + b) == As(a) + As(b) && Cnames(a + b) == Cnames(a) + Cnames(b) && Others(a + b) == Others(a) + Others(b)
    decreases |b|
  {
    if b == [] {
      assert a + b == a;
    } else {
      var front := b[..|b| - 1];
      assert (a + b)[..|a + b| - 1] == a + front;
      AsAppend(a, front);
    }
  }

  lemma OneEntry(e: Entry)
    ensures As([e]) == (if e.A? then [(e.owner, e.address)] else [])
    ensures Cnames([e]) == if e.Cname? then [(e.owner, e.target)] else []
    ensures Others([e]) == if e.Other? then [(e.owner, e.kind)] else []
  {
    assert [e][..0] == [];
  }

  lemma {:induction false} AnswersOk(rs: seq<Record>, an: nat)
    requires RecordsOk(rs, an) && an <= |rs|
    ensures forall r | r in rs[..an] :: RecordOk(r, true)
    decreases |rs|
  {
    if an > 0 {
      AnswersOk(rs[1..], an - 1);
      assert rs[..an] == [rs[0]] + rs[1..][..an - 1];
    }
  }

  lemma {:induction false} AnswerEntries(rs: seq<Record>, an: nat)
    requires RecordsOk(rs, an) && an <= |rs| && forall r | r in rs[..an] :: RecordOk(r, true)
    ensures var es := EntriesOf(rs, an);
            As(es) == AddressRecords(rs[..an]) && Cnames(es) == AliasRecords(rs[..an]) && Others(es) == OtherRecords(rs[..an])
    decreases |rs|
  {
    if rs != [] {
      var rest, e := rs[1..], EntryOf(rs[0], an > 0);
      if an > 0 {
        assert rs[..an][1..] == rest[..an - 1];
      } else {
        assert rs[..an] == rest[..Less(an)] == [];
      }
      AnswerEntries(rest, Less(an));
      EntriesCons(rs, an);
      AsAppend([e], EntriesOf(rest, Less(an)));
      OneEntry(e);
    }
  }

  // ---------- the reader accepts exactly the responses ----------

  // A response to the question under this identifier that is not truncated.
  predicate Responds(m: Message, id: nat, question: string) {
    && MessageOk(m) && m.id == id && m.name == question
    && m.flags / 0x8000 == 1 && m.flags / 0x800 % 16 == 0 && m.flags / 0x200 % 2 == 0
  }

  // What is reported of a message.
  function ReplyOf(m: Message): Reply
    requires MessageOk(m) && forall r | r in m.answers :: RecordOk(r, true)
  {
    Reply(m.id, m.name, m.flags % 16, false, |m.answers|,
          AddressRecords(m.answers), AliasRecords(m.answers), OtherRecords(m.answers))
  }

  lemma MessageAnswersOk(m: Message)
    requires MessageOk(m)
    ensures Records(m)[..|m.answers|] == m.answers && forall r | r in m.answers :: RecordOk(r, true)
  {
    assert Records(m)[..|m.answers|] == m.answers;
    AnswersOk(Records(m), |m.answers|);
  }

  /** Every response is read for what it says, compressed or not: its answers in order. */
  lemma ReadsEveryMessage(data: seq<byte>, m: Message, id: nat, name: string)
    requires Responds(m, id, Lower(name)) && Carries(data, m)
    ensures (forall r | r in m.answers :: RecordOk(r, true)) && Meaning(data, id, name, true) == Some(ReplyOf(m))
  {
    var q: nat :| BodyCarried(data, m, q);
    CarriedHeader(data, m);
    ReadsRecords(data, q + 4, Records(m), |m.answers|);
    MeaningIs(data, id, name, q, EntriesOf(Records(m), |m.answers|));
    MessageAnswersOk(m);
    AnswerEntries(Records(m), |m.answers|);
  }

  lemma MeaningIs(data: seq<byte>, id: nat, name: string, q: nat, es: seq<Entry>)
    requires HeaderOk(data, id) && Word(data, 2) / 0x200 % 2 == 0 && NameAt(data, 12) == Some((Lower(name), q))
    requires q + 4 <= |data| && data[q..q + 4] == IN_A
    requires RecordsAt(data, q + 4, RecordCount(data), Word(data, 6)) == Some((es, |data|))
    ensures Meaning(data, id, name, true) == Some(Filled(Head(data, Lower(name)), es))
  {
    BodyAtIs(data, id, name, q);
    EntriesAre(data, q + 4, es);
  }

  lemma BodyAtIs(data: seq<byte>, id: nat, name: string, q: nat)
    requires HeaderOk(data, id) && NameAt(data, 12) == Some((Lower(name), q))
    requires q + 4 <= |data| && data[q..q + 4] == IN_A
    ensures BodyAt(data, id, name) == Some(q + 4)
  {
  }

  lemma EntriesAre(data: seq<byte>, p: nat, es: seq<Entry>)
    requires |data| >= 12 && RecordsAt(data, p, RecordCount(data), Word(data, 6)) == Some((es, |data|))
    ensures Entries(data, p) == Some(es)
  {
  }

  lemma FirstRecordHere(data: seq<byte>, p: nat, rs: seq<Record>, end: nat)
    requires rs != [] && RecordHere(data, p, rs[0], end) && RecordsHere(data, end, rs[1..])
    ensures RecordsHere(data, p, rs)
  {
  }

  lemma WordBack(hi: byte, lo: byte)
    ensures U16(hi, lo) / 256 == hi && U16(hi, lo) % 256 == lo
  {
  }

  lemma FixedBack(data: seq<byte>, h: nat)
    requires h + 10 <= |data|
    ensures var ttl := Word(data, h + 4) * 65536 + Word(data, h + 6);
            && Word(data, h) < 65536 && Word(data, h + 2) < 65536 && ttl < 65536 * 65536 && Word(data, h + 8) < 65536
            && data[h..h + 10] == Fixed(Word(data, h), Word(data, h + 2), ttl, Word(data, h + 8))
  {
    var hi, lo := Word(data, h + 4), Word(data, h + 6);
    assert (hi * 65536 + lo) / 65536 == hi && (hi * 65536 + lo) % 65536 == lo;
    WordBack(data[h], data[h + 1]);
    WordBack(data[h + 2], data[h + 3]);
    WordBack(data[h + 4], data[h + 5]);
    WordBack(data[h + 6], data[h + 7]);
    WordBack(data[h + 8], data[h + 9]);
  }

  // The record that is read from a fixed part and what follows it.
  lemma BodySpelled(data: seq<byte>, owner: string, h: nat, answer: bool, target: Option<(string, nat)>, entry: Entry, end: nat)
    returns (r: Record)
    requires BodyEntry(data, owner, h, answer, target) == Some((entry, end))
    ensures r.owner == owner && RecordOk(r, answer) && h + 10 <= end <= |data| && end < h + 10 + 65536
    ensures data[h..h + 10] == Fixed(r.kind, r.cls, r.ttl, end - h - 10)
    ensures if r.rdata.Alias? then target == Some((r.rdata.target, end)) else data[h + 10..end] == r.rdata.bytes
  {
    FixedBack(data, h);
    var kind, cls, ttl := Word(data, h), Word(data, h + 2), Word(data, h + 4) * 65536 + Word(data, h + 6);
    r := Record(owner, kind, cls, ttl, if answer && cls == 1 && kind == 5 then Alias(target.value.0) else Raw(data[h + 10..end]));
  }

  // The record that is read at a position.
  lemma RecordSpelled(data: seq<byte>, p: nat, entry: Entry, end: nat, answer: bool) returns (r: Record)
    requires RecordAt(data, p, answer) == Some((entry, end))
    ensures RecordHere(data, p, r, end) && RecordOk(r, answer)
  {
    var (owner, h) := NameAt(data, p).value;
    r := BodySpelled(data, owner, h, answer, NameAt(data, h + 10), entry, end);
    assert BodyHere(data, h, r, end);
  }

  lemma NextRecord(data: seq<byte>, p: nat, count: nat, an: nat) returns (end: nat)
    requires count > 0 && RecordsAt(data, p, count, an).Some?
    ensures RecordAt(data, p, an > 0).Some? && end == RecordAt(data, p, an > 0).value.1 <= |data|
    ensures var more := RecordsAt(data, end, count - 1, Less(an));
            more.Some? && more.value.1 == RecordsAt(data, p, count, an).value.1
  {
    end := RecordAt(data, p, an > 0).value.1;
  }

  lemma InFrontOfRecords(data: seq<byte>, p: nat, end: nat, more: seq<Record>, an: nat) returns (rs: seq<Record>)
    requires RecordAt(data, p, an > 0).Some? && end == RecordAt(data, p, an > 0).value.1
    requires RecordsHere(data, end, more) && RecordsOk(more, Less(an))
    ensures |rs| == |more| + 1 && RecordsOk(rs, an) && RecordsHere(data, p, rs)
  {
    var r := RecordSpelled(data, p, RecordAt(data, p, an > 0).value.0, end, an > 0);
    rs := [r] + more;
    assert rs[1..] == more && rs[0] == r;
    FirstRecordHere(data, p, rs, end);
  }

  lemma {:induction false} RecordsSpelled(data: seq<byte>, p: nat, count: nat, an: nat) returns (rs: seq<Record>)
    requires RecordsAt(data, p, count, an).Some? && RecordsAt(data, p, count, an).value.1 == |data|
    ensures |rs| == count && RecordsOk(rs, an) && RecordsHere(data, p, rs)
    decreases count
  {
    rs := [];
    if count > 0 {
      var end := NextRecord(data, p, count, an);
      var more := RecordsSpelled(data, end, count - 1, Less(an));
      rs := InFrontOfRecords(data, p, end, more, an);
    }
  }

  lemma MeaningParts(data: seq<byte>, id: nat, name: string) returns (q: nat)
    requires Meaning(data, id, name, true).Some?
    ensures HeaderOk(data, id) && Word(data, 2) / 0x200 % 2 == 0 && NameHere(data, 12, Lower(name), q)
    ensures q + 4 <= |data| && data[q..q + 4] == IN_A
    ensures var all := RecordsAt(data, q + 4, RecordCount(data), Word(data, 6)); all.Some? && all.value.1 == |data|
  {
    q := NameAt(data, 12).value.1;
  }

  // The message that an accepted response carries.
  lemma MessageSpelled(data: seq<byte>, id: nat, name: string) returns (m: Message)
    requires Meaning(data, id, name, true).Some?
    ensures Responds(m, id, Lower(name)) && Carries(data, m)
  {
    var q := MeaningParts(data, id, name);
    var an, ns, ar := Word(data, 6), Word(data, 8), Word(data, 10);
    var rs := RecordsSpelled(data, q + 4, RecordCount(data), an);
    m := MessageOf(data, Lower(name), rs, an, ns, ar);
    CarriesSpelled(data, m, q);
  }

  lemma CarriesSpelled(data: seq<byte>, m: Message, q: nat)
    requires |data| >= 12 && Word(data, 4) == 1 && MessageOk(m) && m.id == Word(data, 0) && m.flags == Word(data, 2)
    requires |m.answers| == Word(data, 6) && |m.authority| == Word(data, 8) && |m.additional| == Word(data, 10)
    requires BodyCarried(data, m, q)
    ensures Carries(data, m)
  {
    HeaderBack(data);
  }

  lemma MessageOf(data: seq<byte>, name: string, rs: seq<Record>, an: nat, ns: nat, ar: nat) returns (m: Message)
    requires |data| >= 12 && an < 65536 && ns < 65536 && ar < 65536 && |rs| == an + ns + ar && RecordsOk(rs, an)
    ensures MessageOk(m) && m.id == Word(data, 0) && m.flags == Word(data, 2) && m.name == name && Records(m) == rs
    ensures |m.answers| == an && |m.authority| == ns && |m.additional| == ar
  {
    m := Message(Word(data, 0), Word(data, 2), name, rs[..an], rs[an..an + ns], rs[an + ns..]);
    assert Records(m) == rs;
  }

  lemma HeaderBack(data: seq<byte>)
    requires |data| >= 12 && Word(data, 4) == 1
    ensures data[..12] == Header(Word(data, 0), Word(data, 2), Word(data, 6), Word(data, 8), Word(data, 10))
  {
    WordBack(data[0], data[1]);
    WordBack(data[2], data[3]);
    WordBack(data[4], data[5]);
    WordBack(data[6], data[7]);
    WordBack(data[8], data[9]);
    WordBack(data[10], data[11]);
  }

  /** The reader accepts exactly the octets that carry an untruncated response to its question,
      and reports what the message says. */
  lemma ResponseExactly(data: seq<byte>, id: nat, name: string, reply: Reply)
    ensures Meaning(data, id, name, true) == Some(reply) <==>
            exists m :: Responds(m, id, Lower(name)) && Carries(data, m) && (forall r | r in m.answers :: RecordOk(r, true)) && reply == ReplyOf(m)
  {
    if Meaning(data, id, name, true) == Some(reply) {
      var m := MessageSpelled(data, id, name);
      ReadsEveryMessage(data, m, id, name);
    }
    forall m | Responds(m, id, Lower(name)) && Carries(data, m) && (forall r | r in m.answers :: RecordOk(r, true)) && reply == ReplyOf(m)
      ensures Meaning(data, id, name, true) == Some(reply)
    {
      ReadsEveryMessage(data, m, id, name);
    }
  }

  // The question for this name, of type A and the Internet class.
  ghost predicate Asks(data: seq<byte>, name: string, q: nat) {
    NameHere(data, 12, name, q) && q + 4 <= |data| && data[q..q + 4] == [0, 1, 0, 1]
  }

  // The header of a response under this identifier, with one question, octet by octet.
  predicate Heads(data: seq<byte>, id: nat) {
    && |data| >= 12 && data[0] as nat * 256 + data[1] as nat == id
    && data[2] >= 128 && data[2] as nat / 8 % 16 == 0 && data[4..6] == [0, 1]
  }

  // What the header alone says.
  function Glance(data: seq<byte>, id: nat, question: string): Reply
    requires |data| >= 12
  {
    Reply(id, question, data[3] as nat % 16, data[2] as nat / 2 % 2 == 1, data[6] as nat * 256 + data[7] as nat, [], [], [])
  }

  /** The first look at a datagram asks for the header and the question only. */
  lemma ShortExactly(data: seq<byte>, id: nat, name: string, reply: Reply)
    ensures Meaning(data, id, name, false) == Some(reply) <==>
            Heads(data, id) && (exists q: nat :: Asks(data, Lower(name), q)) && reply == Glance(data, id, Lower(name))
  {
    HeadsExactly(data, id, Lower(name));
    if BodyAt(data, id, name).Some? { assert Asks(data, Lower(name), NameAt(data, 12).value.1); }
    forall q: nat | Heads(data, id) && Asks(data, Lower(name), q) ensures BodyAt(data, id, name).Some? {
    }
  }

  lemma HeadsExactly(data: seq<byte>, id: nat, question: string)
    ensures HeaderOk(data, id) <==> Heads(data, id)
    ensures Heads(data, id) ==> Head(data, question) == Glance(data, id, question)
  {
    if |data| >= 12 {
      FlagOctets(data[2], data[3]);
      assert Word(data, 4) == 1 <==> data[4..6] == [0, 1];
    }
  }

  lemma FlagOctets(hi: byte, lo: byte)
    ensures var flags := U16(hi, lo);
            && (flags / 0x8000 == 1 <==> hi >= 128) && flags / 0x800 % 16 == hi as nat / 8 % 16
            && flags / 0x200 % 2 == hi as nat / 2 % 2 && flags % 16 == lo as nat % 16
  {
    var flags := U16(hi, lo);
    assert flags / 0x200 == hi as nat / 2 && flags / 0x800 == hi as nat / 8;
  }
}
