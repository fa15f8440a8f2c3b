/** Envelopes written to the log: when a written record keeps the chain accepted, and why the
    assumptions about parsing can be met. */
module AuditAppend {
  import opened Prelude
  import opened JsonText
  import opened JsonReader
  import opened CanonicalJson
  import opened AuditChain
  import opened AuditProof
  import Decimal

  // ---------------------------------------------------------------- envelopes

  datatype EnvelopeError = BadSequence

  function SignatureValue(signer: Signer, hash: string): Js {
    Obj([Entry(ALGORITHM, Str(ED25519)), Entry(KEY_ID, Str(signer.keyId)), Entry(VALUE, Str(signer.sign(hash)))])
  }

  function SignatureMembers(signer: Option<Signer>, hash: string): seq<Entry<Js>> {
    if signer.None? then [] else [Entry(SIGNATURE, SignatureValue(signer.value, hash))]
  }

  /** The five hashed members, then the hash, then the signature if there is one. */
  function Sealed(sequence: Js, previous: Js, event: Js, source: Js, hash: string, signer: Option<Signer>): Js {
    Obj(HashInput(sequence, previous, event, source).members + [Entry(RECORD, Str(hash))]
        + SignatureMembers(signer, hash))
  }

  function Envelope(host: Host, sequence: int, previous: Js, event: Js, source: Js, signer: Option<Signer>): Js {
    Sealed(Num(sequence), previous, event, source, RecordHash(host, Num(sequence), previous, event, source), signer)
  }

  function CreateEnvelope(host: Host, event: Js, sequence: int, previous: Js, source: Js, signer: Option<Signer>)
    : Result<Js, EnvelopeError>
  {
    if sequence < 1 || MAX_SAFE < sequence then Err(BadSequence)
    else Ok(Envelope(host, sequence, previous, event, source, signer))
  }

  /** `JSON.stringify`. */
  function Stringify(v: Js): string { Text(Clean(v)) }

  function NativeSource(): Js { Obj([Entry(KIND, Str(NATIVE))]) }

  /** A plain source description naming one of the two kinds. */
  ghost predicate SourceShape(source: Js) {
    Json(source) && (Field(source, KIND) == Str(NATIVE) || Field(source, KIND) == Str(LEGACY))
  }

  lemma NativeSourceShape()
    ensures SourceShape(NativeSource())
  {
    assert NativeSource().members[0].key == KIND;
  }

  // ---------------------------------------------------------------- lookups

  lemma LookupAt(members: seq<Entry<Js>>, i: nat)
    requires i < |members| && DistinctKeys(members)
    ensures Lookup(members, members[i].key) == members[i].value
  {
  }

  lemma KeyLengths()
    ensures |SCHEMA| == 13 && |SEQUENCE| == 8 && |PREVIOUS| == 12 && |EVENT| == 5 && |SOURCE| == 6 && |RECORD| == 10
            && |SIGNATURE| == 9
    ensures |ALGORITHM| == 9 && |KEY_ID| == 5 && |VALUE| == 5 && KEY_ID[0] != VALUE[0]
  {
  }

  /** Pairwise different key lengths make distinct keys. */
  lemma DistinctByLength(members: seq<Entry<Js>>)
    requires forall i, j :: 0 <= i < j < |members| ==> |members[i].key| != |members[j].key|
    ensures DistinctKeys(members)
  {
  }

  lemma SealedKeys(sequence: Js, previous: Js, event: Js, source: Js, hash: string, signer: Option<Signer>)
    ensures DistinctKeys(Sealed(sequence, previous, event, source, hash, signer).members)
  {
    KeyLengths();
    DistinctByLength(Sealed(sequence, previous, event, source, hash, signer).members);
  }

  lemma SealedFields(sequence: Js, previous: Js, event: Js, source: Js, hash: string, signer: Option<Signer>)
    ensures var v := Sealed(sequence, previous, event, source, hash, signer);
            && Field(v, SCHEMA) == Num(2) && Field(v, SEQUENCE) == sequence && Field(v, PREVIOUS) == previous
            && Field(v, EVENT) == event && Field(v, SOURCE) == source && Field(v, RECORD) == Str(hash)
  {
    hide Lookup;
    var members := Sealed(sequence, previous, event, source, hash, signer).members;
    SealedKeys(sequence, previous, event, source, hash, signer);
    LookupAt(members, 0);
    LookupAt(members, 1);
    LookupAt(members, 2);
    LookupAt(members, 3);
    LookupAt(members, 4);
    LookupAt(members, 5);
  }

  lemma SealedSignature(sequence: Js, previous: Js, event: Js, source: Js, hash: string, signer: Option<Signer>)
    ensures var v := Sealed(sequence, previous, event, source, hash, signer);
            Field(v, SIGNATURE) == if signer.None? then Undefined else SignatureValue(signer.value, hash)
  {
    var members := Sealed(sequence, previous, event, source, hash, signer).members;
    KeyLengths();
    if signer.Some? {
      SealedKeys(sequence, previous, event, source, hash, signer);
      LookupAt(members, 6);
    }
  }

  lemma SignatureFields(signer: Signer, hash: string)
    ensures DistinctKeys(SignatureValue(signer, hash).members)
    ensures Field(SignatureValue(signer, hash), KEY_ID) == Str(signer.keyId)
    ensures Field(SignatureValue(signer, hash), VALUE) == Str(signer.sign(hash))
  {
    hide Lookup;
    var members := SignatureValue(signer, hash).members;
    KeyLengths();
    LookupAt(members, 1);
    LookupAt(members, 2);
  }

  // ---------------------------------------------------------------- cleaning an envelope

  lemma {:induction false} LookupOfClean(members: seq<Entry<Js>>, key: string)
    requires DistinctKeys(members)
    ensures Lookup(CleanMembers(members), key) == Clean(Lookup(members, key))
  {
    if members != [] {
      var rest := members[1..];
      LookupOfClean(rest, key);
      if members[0].key == key {
        assert Lookup(rest, key) == Undefined;
      } else if members[0].value != Undefined {
        assert CleanMembers(members)[1..] == CleanMembers(rest);
      }
    }
  }

  lemma FieldOfClean(v: Js, key: string)
    requires WellFormed(v)
    ensures Field(Clean(v), key) == Clean(Field(v, key))
  {
    if v.Obj? { LookupOfClean(v.members, key); }
  }

  lemma EventShapeOfClean(event: Js)
    requires WellFormed(event)
    ensures EventShape(Clean(event)) <==> EventShape(event)
  {
    hide Field;
    FieldOfClean(event, TS);
    FieldOfClean(event, TYPE);
  }

  lemma EventIsObject(event: Js)
    ensures EventShape(event) ==> event.Obj?
  {
  }

  lemma {:induction false} CleanConcat(a: seq<Entry<Js>>, b: seq<Entry<Js>>)
    ensures CleanMembers(a + b) == CleanMembers(a) + CleanMembers(b)
  {
    if a == [] {
      assert a + b == b;
    } else {
      assert (a + b)[0] == a[0] && (a + b)[1..] == a[1..] + b;
      CleanConcat(a[1..], b);
    }
  }

  lemma CleanOne(m: Entry<Js>)
    ensures CleanMembers([m]) == if m.value == Undefined then [] else [Entry(m.key, Clean(m.value))]
  {
    assert [m][1..] == [];
  }

  lemma CleanOfPlain(v: Js)
    requires Plain(v)
    ensures Clean(v) == v
    decreases v, 1
  {
    match v
    case Arr(items) => CleanItemsOfPlain(items);
    case Obj(members) => CleanMembersOfPlain(members);
    case _ =>
  }

  lemma {:induction false} CleanItemsOfPlain(items: seq<Js>)
    requires forall x <- items :: Plain(x)
    ensures CleanItems(items) == items
    decreases items, 0
  {
    if items != [] {
      CleanOfPlain(items[0]);
      CleanItemsOfPlain(items[1..]);
    }
  }

  lemma {:induction false} CleanMembersOfPlain(members: seq<Entry<Js>>)
    requires forall m <- members :: Plain(m.value)
    ensures CleanMembers(members) == members
    decreases members, 0
  {
    if members != [] {
      CleanOfPlain(members[0].value);
      CleanMembersOfPlain(members[1..]);
    }
  }

  /** Replacing one plain value among plain ones: cleaning touches only that one. */
  lemma CleanAround(a: seq<Entry<Js>>, m: Entry<Js>, b: seq<Entry<Js>>)
    requires (forall x <- a :: Plain(x.value)) && (forall x <- b :: Plain(x.value)) && m.value != Undefined
    ensures CleanMembers(a + [m] + b) == a + [Entry(m.key, Clean(m.value))] + b
  {
    CleanConcat(a + [m], b);
    CleanConcat(a, [m]);
    CleanOne(m);
    CleanMembersOfPlain(a);
    CleanMembersOfPlain(b);
  }

  lemma HashInputClean(sequence: Js, previous: Js, event: Js, source: Js)
    requires Plain(sequence) && Plain(previous) && Plain(source) && event != Undefined
    ensures Clean(HashInput(sequence, previous, event, source)) == HashInput(sequence, previous, Clean(event), source)
  {
    var a := [Entry(SCHEMA, Num(2)), Entry(SEQUENCE, sequence), Entry(PREVIOUS, previous)];
    CleanAround(a, Entry(EVENT, event), [Entry(SOURCE, source)]);
    assert HashInput(sequence, previous, event, source).members == a + [Entry(EVENT, event)] + [Entry(SOURCE, source)];
  }

  lemma SignatureIsJson(signer: Signer, hash: string)
    ensures Json(SignatureValue(signer, hash))
  {
    SignatureFields(signer, hash);
  }

  lemma SealPlain(hash: string, signer: Option<Signer>)
    ensures forall m <- [Entry(RECORD, Str(hash))] + SignatureMembers(signer, hash) :: Plain(m.value)
  {
    if signer.Some? { SignatureIsJson(signer.value, hash); }
  }

  lemma SealedClean(sequence: Js, previous: Js, event: Js, source: Js, hash: string, signer: Option<Signer>)
    requires Plain(sequence) && Plain(previous) && Plain(source) && event != Undefined
    ensures Clean(Sealed(sequence, previous, event, source, hash, signer))
            == Sealed(sequence, previous, Clean(event), source, hash, signer)
  {
    hide Plain;
    hide CleanMembers;
    hide SignatureMembers;
    var front := HashInput(sequence, previous, event, source).members;
    var back := [Entry(RECORD, Str(hash))] + SignatureMembers(signer, hash);
    HashInputClean(sequence, previous, event, source);
    SealPlain(hash, signer);
    CleanMembersOfPlain(back);
    CleanConcat(front, back);
    assert Sealed(sequence, previous, event, source, hash, signer).members == front + back;
  }

  ghost predicate JsonValues(members: seq<Entry<Js>>) { forall m <- members :: Json(m.value) }

  lemma JsonObject(members: seq<Entry<Js>>)
    ensures Json(Obj(members)) <==> DistinctKeys(members) && JsonValues(members)
  {
  }

  lemma JsonConcat(a: seq<Entry<Js>>, b: seq<Entry<Js>>)
    ensures JsonValues(a + b) <==> JsonValues(a) && JsonValues(b)
  {
    hide Json;
  }

  lemma SealValues(hash: string, signer: Option<Signer>)
    ensures JsonValues([Entry(RECORD, Str(hash))] + SignatureMembers(signer, hash))
  {
    if signer.Some? { SignatureIsJson(signer.value, hash); }
  }

  lemma SealedIsJson(sequence: Js, previous: Js, event: Js, source: Js, hash: string, signer: Option<Signer>)
    requires Json(sequence) && Json(previous) && Json(event) && Json(source)
    ensures Json(Sealed(sequence, previous, event, source, hash, signer))
  {
    hide Json;
    hide JsonValues;
    hide SignatureMembers;
    var front := HashInput(sequence, previous, event, source).members;
    var back := [Entry(RECORD, Str(hash))] + SignatureMembers(signer, hash);
    SealedKeys(sequence, previous, event, source, hash, signer);
    HashInputIsJson(sequence, previous, event, source);
    JsonObject(front);
    SealValues(hash, signer);
    JsonConcat(front, back);
    JsonObject(front + back);
    assert Sealed(sequence, previous, event, source, hash, signer).members == front + back;
  }

  lemma {:induction false} CleanKeepsForm(v: Js)
    requires WellFormed(v)
    ensures WellFormed(Clean(v))
    decreases v, 1
  {
    match v
    case Arr(items) => CleanItemsKeepForm(items);
    case Obj(members) => CleanMembersKeepForm(members);
    case _ =>
  }

  lemma {:induction false} CleanItemsKeepForm(items: seq<Js>)
    requires forall x <- items :: WellFormed(x)
    ensures forall x <- CleanItems(items) :: WellFormed(x)
    decreases items, 0
  {
    if items != [] {
      CleanKeepsForm(items[0]);
      CleanItemsKeepForm(items[1..]);
    }
  }

  lemma {:induction false} CleanMembersKeepForm(members: seq<Entry<Js>>)
    requires DistinctKeys(members) && forall m <- members :: WellFormed(m.value)
    ensures DistinctKeys(CleanMembers(members)) && forall m <- CleanMembers(members) :: WellFormed(m.value)
    ensures forall m <- CleanMembers(members) :: exists n :: n in members && n.key == m.key
    decreases members, 0
  {
    if members != [] {
      CleanKeepsForm(members[0].value);
      CleanMembersKeepForm(members[1..]);
      assert forall n <- members[1..] :: n in members && n.key != members[0].key;
    }
  }

  // ---------------------------------------------------------------- one line of text

  predicate OneLine(s: string) { forall i :: 0 <= i < |s| ==> s[i] >= ' ' }

  lemma {:induction false} EscapesOneLine(s: string)
    ensures OneLine(EscapeAll(s))
  {
    if s != [] {
      EscapesOneLine(s[1..]);
      assert OneLine(Escape(s[0]));
    }
  }

  lemma QuoteOneLine(s: string)
    ensures OneLine(Quote(s)) && Quote(s) != []
  {
    EscapesOneLine(s);
  }

  lemma NumOneLine(n: int)
    ensures OneLine(NumText(n)) && NumText(n) != []
  {
    DigitTextIsDigits(if n < 0 then -n else n);
    FirstOfNum(n);
  }

  lemma OneLineConcat(a: string, b: string)
    ensures OneLine(a) && OneLine(b) ==> OneLine(a + b)
  {
  }

  lemma {:induction false} TextOneLine(v: Js)
    ensures OneLine(Text(v)) && Text(v) != []
    decreases v, 1
  {
    hide NumText;
    hide Quote;
    hide MemberText;
    hide MembersTail;
    hide ItemsTail;
    match v
    case Num(n) => NumOneLine(n);
    case Frac(f) => assert forall i :: 0 <= i < |f| ==> NumeralChar(f[i]);
    case Str(s) => QuoteOneLine(s);
    case Arr(items) =>
      if items != [] {
        TextOneLine(items[0]);
        ItemsOneLine(items[1..]);
        OneLineConcat(Text(items[0]), ItemsTail(items[1..]));
        OneLineConcat(['['], Text(items[0]) + ItemsTail(items[1..]));
      }
    case Obj(members) =>
      if members != [] {
        MemberOneLine(members[0]);
        MembersOneLine(members[1..]);
        OneLineConcat(MemberText(members[0]), MembersTail(members[1..]));
        OneLineConcat(['{'], MemberText(members[0]) + MembersTail(members[1..]));
      }
    case _ =>
  }

  lemma {:induction false} ItemsOneLine(items: seq<Js>)
    ensures OneLine(ItemsTail(items))
    decreases items, 0
  {
    if items != [] {
      TextOneLine(items[0]);
      ItemsOneLine(items[1..]);
    }
  }

  lemma {:induction false} MemberOneLine(m: Entry<Js>)
    ensures OneLine(MemberText(m))
    decreases m, 0
  {
    QuoteOneLine(m.key);
    TextOneLine(m.value);
  }

  lemma {:induction false} MembersOneLine(members: seq<Entry<Js>>)
    ensures OneLine(MembersTail(members))
    decreases members, 0
  {
    if members != [] {
      MemberOneLine(members[0]);
      MembersOneLine(members[1..]);
    }
  }

  function WithLine(raw: string, line: string): string { raw + line + ['\n'] }

  lemma LastNewlineIs(raw: string, i: nat)
    requires i < |raw| && raw[i] == '\n' && forall k :: i < k < |raw| ==> raw[k] != '\n'
    ensures LastNewline(raw) == Some(i)
  {
  }

  lemma SplitOfComplete(raw: string)
    requires Complete(raw)
    ensures Split(raw) == SplitComplete(raw) + [[]]
  {
    hide SplitComplete;
    if raw == [] {
      assert SplitComplete(raw) == [] by { SplitNothing(); }
    } else {
      LastNewlineIs(raw, |raw| - 1);
      assert raw[..|raw|] == raw && raw[|raw|..] == [];
    }
  }

  lemma SplitNothing()
    ensures SplitComplete([]) == []
  {
  }

  lemma SplitLine(raw: string, line: string)
    requires Complete(raw) && OneLine(line)
    ensures SplitComplete(WithLine(raw, line)) == SplitComplete(raw) + [line]
  {
    var all := WithLine(raw, line);
    var body := raw + line;
    assert all[..|all| - 1] == body;
    assert DropReturn(line) == line;
    if raw == [] {
      assert body == line;
      assert LastNewline(body).None?;
    } else {
      LastNewlineIs(body, |raw| - 1);
      assert body[..|raw|] == raw && body[|raw|..] == line;
    }
  }

  /** A line written after a complete text adds one record and keeps the text complete. */
  lemma WrittenLine(raw: string, line: string)
    requires Complete(raw) && OneLine(line) && line != []
    ensures Complete(WithLine(raw, line))
    ensures Records(Split(WithLine(raw, line))) == Records(Split(raw)) + [line]
  {
    hide SplitComplete;
    hide Split;
    var all := WithLine(raw, line);
    assert Complete(all);
    SplitOfComplete(raw);
    SplitOfComplete(all);
    SplitLine(raw, line);
    RecordsConcat(SplitComplete(raw), [[]]);
    RecordsConcat(SplitComplete(raw), [line]);
    RecordsConcat(SplitComplete(all), [[]]);
    assert Records([[]]) == [] && Records([line]) == [line];
  }

  lemma {:induction false} RecordsConcat(a: seq<string>, b: seq<string>)
    ensures Records(a + b) == Records(a) + Records(b)
  {
    if b == [] {
      assert a + b == a;
    } else {
      var n := |b| - 1;
      assert (a + b)[..|a + b| - 1] == a + b[..n] && (a + b)[|a + b| - 1] == b[n];
      RecordsConcat(a, b[..n]);
    }
  }

  // ---------------------------------------------------------------- acceptance of a written record

  /** What is known of the record about to be written. */
  ghost predicate Ready(host: Host, previous: Js, event: Js, source: Js, signer: Option<Signer>) {
    && Parses(host) && SignerTrusted(host, signer)
    && (previous.Null? || previous.Str?) && WellFormed(event) && SourceShape(source)
  }

  /** The value a written envelope parses back to. */
  function ReadBack(host: Host, sequence: int, previous: Js, event: Js, source: Js, signer: Option<Signer>): Js {
    Sealed(Num(sequence), previous, Clean(event), source, RecordHash(host, Num(sequence), previous, event, source),
           signer)
  }

  lemma WrittenParses(host: Host, sequence: int, previous: Js, event: Js, source: Js, signer: Option<Signer>)
    requires Ready(host, previous, event, source, signer) && event != Undefined
    ensures host.parse(Stringify(Envelope(host, sequence, previous, event, source, signer)))
         == Some(ReadBack(host, sequence, previous, event, source, signer))
  {
    hide RecordHash;
    hide Sealed;
    hide Field;
    var hash := RecordHash(host, Num(sequence), previous, event, source);
    CleanIdempotent(event);
    CleanKeepsForm(event);
    SealedClean(Num(sequence), previous, event, source, hash, signer);
    SealedIsJson(Num(sequence), previous, Clean(event), source, hash, signer);
  }

  lemma SealedSignatureOk(host: Host, sequence: Js, previous: Js, event: Js, source: Js, hash: string,
                          signer: Option<Signer>)
    requires SignerTrusted(host, signer)
    ensures var v := Sealed(sequence, previous, event, source, hash, signer);
            Truthy(Field(v, SIGNATURE)) && KnownSigner(host, v) ==> SignatureValid(host, v)
  {
    hide Sealed;
    hide Field;
    SealedSignature(sequence, previous, event, source, hash, signer);
    SealedFields(sequence, previous, event, source, hash, signer);
    if signer.Some? { SignatureFields(signer.value, hash); }
  }

  /** Does the text hashed before writing match the text hashed after reading back? */
  ghost predicate HashSurvives(host: Host, sequence: int, previous: Js, event: Js, source: Js) {
    RecordHash(host, Num(sequence), previous, Clean(event), source)
        == RecordHash(host, Num(sequence), previous, event, source)
  }

  lemma WrittenRecordOk(host: Host, sequence: nat, previous: Js, event: Js, source: Js, signer: Option<Signer>)
    requires Ready(host, previous, event, source, signer) && event != Undefined
    ensures RecordOk(host, Stringify(Envelope(host, sequence, previous, event, source, signer)), sequence, previous)
            <==> EventShape(event) && HashSurvives(host, sequence, previous, event, source)
  {
    hide RecordHash;
    hide Sealed;
    hide Field;
    hide KnownSigner;
    hide SignatureValid;
    hide Stringify;
    hide EventShape;
    var hash := RecordHash(host, Num(sequence), previous, event, source);
    WrittenParses(host, sequence, previous, event, source, signer);
    SealedFields(Num(sequence), previous, Clean(event), source, hash, signer);
    SealedSignatureOk(host, Num(sequence), previous, Clean(event), source, hash, signer);
    EventShapeOfClean(event);
  }

  lemma HashInputUndefinedFree(sequence: Js, previous: Js, event: Js, source: Js)
    requires Plain(sequence) && Plain(previous) && Plain(source) && event != Undefined
    ensures NoUndefinedMember(HashInput(sequence, previous, event, source)) <==> NoUndefinedMember(event)
  {
    PlainIsUndefinedFree(sequence);
    PlainIsUndefinedFree(previous);
    PlainIsUndefinedFree(source);
    var members := HashInput(sequence, previous, event, source).members;
    assert members[3] == Entry(EVENT, event);
  }

  lemma PlainIsUndefinedFree(v: Js)
    requires Plain(v)
    ensures NoUndefinedMember(v)
  {
    CleanOfPlain(v);
    CleanShrinks(v);
    CleanNulled(v);
  }

  lemma {:induction false} CleanNulled(v: Js)
    requires Plain(v)
    ensures Nulled(v) == v
    decreases v, 1
  {
    match v
    case Arr(items) => NulledItemsPlain(items);
    case Obj(members) => NulledMembersPlain(members);
    case _ =>
  }

  lemma {:induction false} NulledItemsPlain(items: seq<Js>)
    requires forall x <- items :: Plain(x)
    ensures NulledItems(items) == items
    decreases items, 0
  {
    if items != [] {
      CleanNulled(items[0]);
      NulledItemsPlain(items[1..]);
    }
  }

  lemma {:induction false} NulledMembersPlain(members: seq<Entry<Js>>)
    requires forall m <- members :: Plain(m.value)
    ensures NulledMembers(members) == members
    decreases members, 0
  {
    if members != [] {
      CleanNulled(members[0].value);
      NulledMembersPlain(members[1..]);
    }
  }

  lemma HashSurvivesIff(host: Host, sequence: int, previous: Js, event: Js, source: Js)
    requires Plain(previous) && Plain(source) && event != Undefined
    ensures NoUndefinedMember(event) ==> HashSurvives(host, sequence, previous, event, source)
    ensures HashIsInjective(host) && HashSurvives(host, sequence, previous, event, source) ==> NoUndefinedMember(event)
  {
    hide Canonical;
    hide Clean;
    hide NoUndefinedMember;
    hide HashInput;
    var v := HashInput(Num(sequence), previous, event, source);
    HashInputUndefinedFree(Num(sequence), previous, event, source);
    HashInputClean(Num(sequence), previous, event, source);
    CanonicalSurvivesRoundTripIff(host.le, v);
  }

  function WrittenLineOf(host: Host, sequence: int, previous: Js, event: Js, source: Js,
                         signer: Option<Signer>): string {
    Stringify(Envelope(host, sequence, previous, event, source, signer))
  }

  lemma LinkedSnoc(host: Host, records: seq<string>, line: string)
    ensures Linked(host, records + [line]) <==>
            Linked(host, records) && RecordOk(host, line, |records| + 1, Tip(host, records))
  {
    hide RecordOk;
    hide Tip;
    var all := records + [line];
    assert all[..|all| - 1] == records;
  }

  /** Writing a record for a well-shaped event with no undefined member, numbered and linked after
      an accepted text, gives an accepted text with exactly one record more and the record's hash at its head. */
  lemma WrittenAccepted(host: Host, raw: string, event: Js, source: Js, signer: Option<Signer>)
    requires ChainOk(host, raw) && EventShape(event) && NoUndefinedMember(event)
    requires Ready(host, Tip(host, Records(Split(raw))), event, source, signer)
    ensures var records := Records(Split(raw));
            var line := WrittenLineOf(host, |records| + 1, Tip(host, records), event, source, signer);
            && ChainOk(host, WithLine(raw, line))
            && Records(Split(WithLine(raw, line))) == records + [line]
            && host.parse(line) == Some(ReadBack(host, |records| + 1, Tip(host, records), event, source, signer))
            && Tip(host, records + [line]) == Str(RecordHash(host, Num(|records| + 1), Tip(host, records), event,
                                                             source))
  {
    hide Split;
    hide RecordOk;
    hide Envelope;
    hide RecordHash;
    hide NoUndefinedMember;
    hide Field;
    var records := Records(Split(raw));
    var tip := Tip(host, records);
    var line := WrittenLineOf(host, |records| + 1, tip, event, source, signer);
    TextOneLine(Clean(Envelope(host, |records| + 1, tip, event, source, signer)));
    WrittenLine(raw, line);
    EventIsObject(event);
    HashSurvivesIff(host, |records| + 1, tip, event, source);
    WrittenRecordOk(host, |records| + 1, tip, event, source, signer);
    WrittenParses(host, |records| + 1, tip, event, source, signer);
    LinkedSnoc(host, records, line);
    TipOfWritten(host, records, line, |records| + 1, tip, event, source, signer);
  }

  lemma TipOfWritten(host: Host, records: seq<string>, line: string, n: nat, tip: Js, event: Js, source: Js,
                     signer: Option<Signer>)
    requires host.parse(line) == Some(ReadBack(host, n, tip, event, source, signer))
    ensures Tip(host, records + [line]) == Str(RecordHash(host, Num(n), tip, event, source))
  {
    hide RecordHash;
    hide Field;
    hide Sealed;
    SealedFields(Num(n), tip, Clean(event), source, RecordHash(host, Num(n), tip, event, source), signer);
  }

  /** With a collision-free hash the condition is exact: an event with an undefined member anywhere
      below it, or without its two strings, leaves a log the verifier rejects. */
  lemma WrittenAcceptedIff(host: Host, raw: string, event: Js, source: Js, signer: Option<Signer>)
    requires ChainOk(host, raw) && HashIsInjective(host) && event != Undefined
    requires Ready(host, Tip(host, Records(Split(raw))), event, source, signer)
    ensures var records := Records(Split(raw));
            var line := WrittenLineOf(host, |records| + 1, Tip(host, records), event, source, signer);
            ChainOk(host, WithLine(raw, line)) <==> EventShape(event) && NoUndefinedMember(event)
  {
    hide Split;
    hide RecordOk;
    hide Envelope;
    hide HashSurvives;
    hide NoUndefinedMember;
    hide EventShape;
    hide SourceShape;
    var records := Records(Split(raw));
    var tip := Tip(host, records);
    var line := WrittenLineOf(host, |records| + 1, tip, event, source, signer);
    TextOneLine(Clean(Envelope(host, |records| + 1, tip, event, source, signer)));
    WrittenLine(raw, line);
    SourceIsPlain(source);
    HashSurvivesIff(host, |records| + 1, tip, event, source);
    WrittenRecordOk(host, |records| + 1, tip, event, source, signer);
    LinkedSnoc(host, records, line);
  }

  const NOTE := "note"

  /** An event with its two strings and one undefined member. */
  function UndefinedNote(): Js { Obj([Entry(TS, Str([])), Entry(TYPE, Str([])), Entry(NOTE, Undefined)]) }

  /** The smallest such event: after any accepted text, its record is rejected. */
  lemma UndefinedNoteRejected(host: Host, raw: string, signer: Option<Signer>)
    requires ChainOk(host, raw) && HashIsInjective(host) && Parses(host) && SignerTrusted(host, signer)
    ensures var records := Records(Split(raw));
            var tip := Tip(host, records);
            var line := WrittenLineOf(host, |records| + 1, tip, UndefinedNote(), NativeSource(), signer);
            EventShape(UndefinedNote()) && !ChainOk(host, WithLine(raw, line))
  {
    hide Split;
    hide Linked;
    hide WrittenLineOf;
    UndefinedNoteShape();
    NativeSourceShape();
    TipIsHash(host, Records(Split(raw)));
    WrittenAcceptedIff(host, raw, UndefinedNote(), NativeSource(), signer);
  }

  lemma UndefinedNoteShape()
    ensures WellFormed(UndefinedNote()) && EventShape(UndefinedNote()) && !NoUndefinedMember(UndefinedNote())
  {
    var members := UndefinedNote().members;
    assert |TS| == 2 && |TYPE| == 4 && |NOTE| == 4 && TYPE[0] != NOTE[0];
    assert DistinctKeys(members);
    LookupAt(members, 0);
    LookupAt(members, 1);
    assert members[2].value == Undefined;
  }

  lemma SourceIsPlain(source: Js)
    requires SourceShape(source)
    ensures Plain(source)
  {
  }

  // ---------------------------------------------------------------- the assumptions can be met

  /** What the reader makes of a text, if that is a value JSON can express. */
  ghost function ReferenceParse(s: string): Option<Js> {
    match ReadText(s)
    case None => None
    case Some(v) => if Json(v) then Some(v) else None
  }

  /** There is a host whose parser inverts printing, yields only JSON values, and whose hash is collision-free. */
  lemma IdealHost(le: Order, keys: set<string>, verifies: (string, string, string) -> bool) returns (host: Host)
    ensures Parses(host) && ParsesToJson(host) && HashIsInjective(host)
    ensures host.le == le && host.keys == keys && host.verifies == verifies
  {
    host := Host(s => ReferenceParse(s), v => [], f => Num(0), le, s => s, keys, verifies);
    forall v | Plain(v) && WellFormed(v) ensures host.parse(Text(v)) == Some(v) {
      TextRoundTrip(v);
    }
  }
}
