/**
 * The static table of section 2.3.1 of RFC 7541 and the numbering of known names
 * (static_table and lookup_token of lib/nghttp2_hd.c).
 */
module HpackStatic {
  import opened Bytes
  import opened HpackTable
  import opened HpackInteger
  import Encoder = HpackEncoder
  import Decoder = HpackDecoder
  import Connection = HpackConnection
  import Bound = HpackBound
  import Search = HpackSearch

  /** The octets of an ASCII text. */
  function Ascii(s: string): (r: seq<Byte>)
    ensures |r| == |s| && forall i | 0 <= i < |s| :: r[i] == s[i] as int % 256
  {
    seq(|s|, i requires 0 <= i < |s| => s[i] as int % 256)
  }

  /** The known name with a number; numbers of repeated static names are not used. */
  function NameText(token: nat): string
  {
    match token
    case 0 => ":authority"
    case 1 => ":method"
    case 3 => ":path"
    case 5 => ":scheme"
    case 7 => ":status"
    case 14 => "accept-charset"
    case 15 => "accept-encoding"
    case 16 => "accept-language"
    case 17 => "accept-ranges"
    case 18 => "accept"
    case 19 => "access-control-allow-origin"
    case 20 => "age"
    case 21 => "allow"
    case 22 => "authorization"
    case 23 => "cache-control"
    case 24 => "content-disposition"
    case 25 => "content-encoding"
    case 26 => "content-language"
    case 27 => "content-length"
    case 28 => "content-location"
    case 29 => "content-range"
    case 30 => "content-type"
    case 31 => "cookie"
    case 32 => "date"
    case 33 => "etag"
    case 34 => "expect"
    case 35 => "expires"
    case 36 => "from"
    case 37 => "host"
    case 38 => "if-match"
    case 39 => "if-modified-since"
    case 40 => "if-none-match"
    case 41 => "if-range"
    case 42 => "if-unmodified-since"
    case 43 => "last-modified"
    case 44 => "link"
    case 45 => "location"
    case 46 => "max-forwards"
    case 47 => "proxy-authenticate"
    case 48 => "proxy-authorization"
    case 49 => "range"
    case 50 => "referer"
    case 51 => "refresh"
    case 52 => "retry-after"
    case 53 => "server"
    case 54 => "set-cookie"
    case 55 => "strict-transport-security"
    case 56 => "transfer-encoding"
    case 57 => "user-agent"
    case 58 => "vary"
    case 59 => "via"
    case 60 => "www-authenticate"
    case 61 => "te"
    case 62 => "connection"
    case 63 => "keep-alive"
    case 64 => "proxy-connection"
    case 65 => "upgrade"
    case _ => ""
  }

  predicate IsToken(token: int)
  {
    0 <= token <= 65 && token != 2 && token != 4 && token != 6 && !(8 <= token <= 13)
  }

  /** The number the length, the last and the first octet of a name lead to, or -1. */
  function Candidate(len: nat, last: nat, first: nat): int
  {
    match len
    case 2 =>
      if last == 'e' as int then 61
      else -1
    case 3 =>
      if last == 'a' as int then 59
      else if last == 'e' as int then 20
      else -1
    case 4 =>
      if last == 'e' as int then 32
      else if last == 'g' as int then 33
      else if last == 'k' as int then 44
      else if last == 'm' as int then 36
      else if last == 't' as int then 37
      else if last == 'y' as int then 58
      else -1
    case 5 =>
      if last == 'e' as int then 49
      else if last == 'h' as int then 3
      else if last == 'w' as int then 21
      else -1
    case 6 =>
      if last == 'e' as int then 31
      else if last == 'r' as int then 53
      else if last == 't' as int && first == 'a' as int then 18
      else if last == 't' as int && first == 'e' as int then 34
      else -1
    case 7 =>
      if last == 'd' as int then 1
      else if last == 'e' as int && first == ':' as int then 5
      else if last == 'e' as int && first == 'u' as int then 65
      else if last == 'h' as int then 51
      else if last == 'r' as int then 50
      else if last == 's' as int && first == ':' as int then 7
      else if last == 's' as int && first == 'e' as int then 35
      else -1
    case 8 =>
      if last == 'e' as int then 41
      else if last == 'h' as int then 38
      else if last == 'n' as int then 45
      else -1
    case 10 =>
      if last == 'e' as int && first == 's' as int then 54
      else if last == 'e' as int && first == 'k' as int then 63
      else if last == 'n' as int then 62
      else if last == 't' as int then 57
      else if last == 'y' as int then 0
      else -1
    case 11 =>
      if last == 'r' as int then 52
      else -1
    case 12 =>
      if last == 'e' as int then 30
      else if last == 's' as int then 46
      else -1
    case 13 =>
      if last == 'd' as int then 43
      else if last == 'e' as int then 29
      else if last == 'h' as int then 40
      else if last == 'l' as int then 23
      else if last == 'n' as int then 22
      else if last == 's' as int then 17
      else -1
    case 14 =>
      if last == 'h' as int then 27
      else if last == 't' as int then 14
      else -1
    case 15 =>
      if last == 'e' as int then 16
      else if last == 'g' as int then 15
      else -1
    case 16 =>
      if last == 'e' as int && first == 'c' as int then 26
      else if last == 'e' as int && first == 'w' as int then 60
      else if last == 'g' as int then 25
      else if last == 'n' as int && first == 'c' as int then 28
      else if last == 'n' as int && first == 'p' as int then 64
      else -1
    case 17 =>
      if last == 'e' as int then 39
      else if last == 'g' as int then 56
      else -1
    case 18 =>
      if last == 'e' as int then 47
      else -1
    case 19 =>
      if last == 'e' as int then 42
      else if last == 'n' as int && first == 'c' as int then 24
      else if last == 'n' as int && first == 'p' as int then 48
      else -1
    case 25 =>
      if last == 'y' as int then 55
      else -1
    case 27 =>
      if last == 'n' as int then 19
      else -1
    case _ => -1
  }

  /** The number of a known name, -1 for all others. */
  function LookupToken(name: seq<Byte>): (r: int)
    ensures r >= 0 ==> name == Ascii(NameText(r)) && name != []
  {
    if name == [] then -1
    else
      var t := Candidate(|name|, name[|name| - 1], name[0]);
      if t >= 0 && name == Ascii(NameText(t)) then t else -1
  }

  /** Equal names of the static table share the number of their first position. */
  function StaticToken(i: nat): nat
  {
    if i == 2 then 1 else if i == 4 then 3 else if i == 6 then 5 else if 8 <= i <= 13 then 7 else i
  }

  function StaticValue(i: nat): string
  {
    match i
    case 1 => "GET"
    case 2 => "POST"
    case 3 => "/"
    case 4 => "/index.html"
    case 5 => "http"
    case 6 => "https"
    case 7 => "200"
    case 8 => "204"
    case 9 => "206"
    case 10 => "304"
    case 11 => "400"
    case 12 => "404"
    case 13 => "500"
    case 15 => "gzip, deflate"
    case _ => ""
  }

  function StaticTable(): (t: seq<Entry>)
    ensures |t| == StaticLength
    ensures forall i | 0 <= i < StaticLength ::
      t[i] == Entry(Ascii(NameText(StaticToken(i))), Ascii(StaticValue(i)), StaticToken(i))
  {
    seq(StaticLength, i requires 0 <= i => Entry(Ascii(NameText(StaticToken(i))), Ascii(StaticValue(i)), StaticToken(i)))
  }

  /** The length and the outer octets of every known name lead to its number. */
  predicate Found(t: nat, s: string)
  {
    s != "" && s[0] as int < 256 && s[|s| - 1] as int < 256 && Candidate(|s|, s[|s| - 1] as int, s[0] as int) == t
  }

  lemma FoundFrom0(t: nat)
    requires 0 <= t <= 20 && IsToken(t)
    ensures Found(t, NameText(t))
  {}

  lemma FoundFrom21(t: nat)
    requires 21 <= t <= 33 && IsToken(t)
    ensures Found(t, NameText(t))
  {}

  lemma FoundFrom34(t: nat)
    requires 34 <= t <= 43 && IsToken(t)
    ensures Found(t, NameText(t))
  {}

  lemma FoundFrom44(t: nat)
    requires 44 <= t <= 53 && IsToken(t)
    ensures Found(t, NameText(t))
  {}

  lemma FoundFrom54(t: nat)
    requires 54 <= t <= 65 && IsToken(t)
    ensures Found(t, NameText(t))
  {}

  lemma EveryTokenFound(t: nat)
    requires IsToken(t)
    ensures Found(t, NameText(t))
  {
    if t <= 20 {
      FoundFrom0(t);
    } else if t <= 33 {
      FoundFrom21(t);
    } else if t <= 43 {
      FoundFrom34(t);
    } else if t <= 53 {
      FoundFrom44(t);
    } else {
      FoundFrom54(t);
    }
  }

  lemma TokenOfName(t: nat)
    requires IsToken(t)
    ensures LookupToken(Ascii(NameText(t))) == t
  {
    EveryTokenFound(t);
    LookupFinds(t, NameText(t));
  }

  lemma LookupFinds(t: nat, s: string)
    requires Found(t, s) && s == NameText(t)
    ensures LookupToken(Ascii(s)) == t
  {
    var name := Ascii(s);
    assert name[|name| - 1] == s[|s| - 1] as int && name[0] == s[0] as int;
  }

  lemma LookupIsToken(name: seq<Byte>)
    ensures LookupToken(name) == -1 || IsToken(LookupToken(name))
  {}

  function RfcDictionary(): Dictionary { Dictionary(StaticTable(), LookupToken) }

  /** Numbers and static table agree, so the connection theorems hold for them. */
  lemma RfcDictionaryIsValid()
    ensures RfcDictionary().Valid()
  {
    var d := RfcDictionary();
    forall i | 0 <= i < StaticLength ensures d.token(d.fixed[i].name) == d.fixed[i].token {
      TokenOfName(StaticToken(i));
    }
    forall name: seq<Byte> | 0 <= d.token(name) < StaticLength ensures d.fixed[d.token(name)].name == name {
      LookupIsToken(name);
    }
    forall name: seq<Byte> ensures -1 <= d.token(name) {
      LookupIsToken(name);
    }
  }

  lemma RfcDictionaryIsGrouped()
    ensures RfcDictionary().Grouped()
  {
    var d := RfcDictionary();
    forall i | 0 <= i < StaticLength ensures d.GroupedAt(i) {
      forall j | StaticToken(i) <= j <= i ensures d.fixed[j].token == StaticToken(i) { }
    }
  }

  /** With these tables the encoder writes every field in the best way, in every state. */
  lemma RfcFieldIsBest(e: Encoder.Encoder, f: Field)
    requires e.Valid() && e.dict == RfcDictionary()
    ensures Search.IsBest(e.dict, e.table, Encoder.Search(e.dict, e.table, f, Encoder.ChooseMode(e.dict, f, e.max)), f,
                          Encoder.ChooseMode(e.dict, f, e.max))
  {
    RfcDictionaryIsGrouped();
    Search.SearchIsBest(e.dict, e.table, f, Encoder.ChooseMode(e.dict, f, e.max));
  }

  /** A name has a number iff it is the name with that number. */
  lemma NumberIff(name: seq<Byte>, t: nat)
    requires IsToken(t)
    ensures LookupToken(name) == t <==> name == Ascii(NameText(t))
  {
    TokenOfName(t);
  }

  /** Names whose values are not worth a place in the table. */
  predicate RareName(name: seq<Byte>) { RareTarget(name) || RareEntity(name) || RareCondition(name) || RareAnswer(name) }

  predicate RareTarget(name: seq<Byte>) { name == Ascii(":path") || name == Ascii("location") }

  predicate RareEntity(name: seq<Byte>) { name == Ascii("content-length") || name == Ascii("etag") }

  predicate RareCondition(name: seq<Byte>) { name == Ascii("if-modified-since") || name == Ascii("if-none-match") }

  predicate RareAnswer(name: seq<Byte>) { name == Ascii("age") || name == Ascii("set-cookie") }

  lemma RareTargetIff(name: seq<Byte>)
    ensures RareTarget(name) <==> LookupToken(name) == 3 || LookupToken(name) == 45
  {
    NumberIff(name, 3);
    NumberIff(name, 45);
  }

  lemma RareEntityIff(name: seq<Byte>)
    ensures RareEntity(name) <==> LookupToken(name) == 27 || LookupToken(name) == 33
  {
    NumberIff(name, 27);
    NumberIff(name, 33);
  }

  lemma RareConditionIff(name: seq<Byte>)
    ensures RareCondition(name) <==> LookupToken(name) == 39 || LookupToken(name) == 40
  {
    NumberIff(name, 39);
    NumberIff(name, 40);
  }

  lemma RareAnswerIff(name: seq<Byte>)
    ensures RareAnswer(name) <==> LookupToken(name) == 20 || LookupToken(name) == 54
  {
    NumberIff(name, 20);
    NumberIff(name, 54);
  }

  lemma RareIff(name: seq<Byte>)
    ensures Encoder.RarelyRepeats(LookupToken(name)) <==> RareName(name)
  {
    RareTargetIff(name);
    RareEntityIff(name);
    RareConditionIff(name);
    RareAnswerIff(name);
  }

  /** Credentials, short cookies and what the application flags: these must never be indexed. */
  predicate Sensitive(f: Field)
  {
    f.noIndex || f.name == Ascii("authorization") || (f.name == Ascii("cookie") && |f.value| < 20)
  }

  lemma ModeByName(f: Field, max: nat)
    ensures
      Encoder.ChooseMode(RfcDictionary(), f, max) ==
        if Sensitive(f) then Encoder.NeverIndexing
        else if RareName(f.name) || 32 + |f.name| + |f.value| > max * 3 / 4 then Encoder.WithoutIndexing
        else Encoder.WithIndexing
  {
    NumberIff(f.name, 22);
    NumberIff(f.name, 31);
    RareIff(f.name);
  }

  /** A sensitive field enters no table and is received as one that must not be indexed. */
  lemma SensitiveStaysOut(t: seq<Entry>, max: nat, f: Field)
    requires Sensitive(f)
    ensures Encoder.FieldTable(RfcDictionary(), t, max, f) == t
    ensures Connection.Received(RfcDictionary(), max, f) == f.(noIndex := true)
  {
    ModeByName(f, max);
    Connection.NeverIndexedStaysOut(RfcDictionary(), t, max, f);
  }

  lemma NullsAreUnknown(n: nat)
    ensures LookupToken(Bound.Nulls(n)) == -1
  {
    assert n > 0 ==> Candidate(n, 0, 0) < 0;
  }

  /** When the bound on a block of fields of given lengths suffices with these tables. */
  lemma RfcBoundSufficesIff(ls: seq<Bound.Lengths>)
    ensures
      (forall e: Encoder.Encoder, fs: seq<Field> | e.Valid() && e.dict == RfcDictionary() && Bound.LengthsOf(fs) == ls ::
        |Encoder.BlockBytes(e, fs)| <= Bound.Bound(fs))
      <==> Bound.OverheadsOf(ls) <= 12 * |ls|
  {
    RfcDictionaryIsValid();
    forall l | l in ls ensures RfcDictionary().token(Bound.Nulls(l.name)) == -1 { NullsAreUnknown(l.name); }
    Bound.BoundSufficesIff(RfcDictionary(), ls);
  }

  /**
   * From the initial states a block without fields is refused, and one of a field without name
   * and with a value of `n` octets is decoded iff these and two zeros fit 65536 octets.
   */
  lemma BlocksRefused(n: nat)
    ensures
      var e, s := Encoder.InitialEncoder(RfcDictionary(), 4096), Connection.InitialDecoder(RfcDictionary());
      && s.Valid() && !Connection.DecodeBlock(s, Encoder.BlockBytes(e, [])).Fed?
      && (Connection.DecodeBlock(s, Encoder.BlockBytes(e, [Field([], Bound.Nulls(n), true)])).Fed? <==> n + 2 <= 65536)
  {
    var d := RfcDictionary();
    var e, s := Encoder.InitialEncoder(d, 4096), Connection.InitialDecoder(d);
    RfcDictionaryIsValid();
    Connection.InitiallySynced(d, 4096, s);
    Connection.BlockDecodesIff(e, s, []);
    var f := Field([], Bound.Nulls(n), true);
    Connection.BlockDecodesIff(e, s, [f]);
    OneFieldFits(d, f);
  }

  lemma OneFieldFits(d: Dictionary, f: Field)
    requires |d.fixed| == StaticLength && d.token(f.name) == -1
    ensures Connection.AllFit(d, [], 4096, [f]) <==> |f.name| + |f.value| + 2 <= 65536
  {
    assert Encoder.Search(d, [], f, Encoder.ChooseMode(d, f, 4096)).index == -1;
    assert [f][1..] == [];
  }

  /** From its initial state a connection with these tables never gets out of step. */
  lemma EveryConnectionStaysInSync(ownMax: nat, events: seq<Connection.Event>) returns (last: Decoder.Decoder)
    requires ownMax <= UINT32_MAX && Connection.Proper(Encoder.InitialEncoder(RfcDictionary(), ownMax), events)
    ensures
      var e := Encoder.InitialEncoder(RfcDictionary(), ownMax);
      var s := Connection.InitialDecoder(RfcDictionary());
      && s.Valid() && Connection.Transfer(e, s, events) == Some((Connection.Expected(e, events), last))
      && Connection.Synced(Connection.EncoderAfter(e, events), last)
  {
    RfcDictionaryIsValid();
    var e := Encoder.InitialEncoder(RfcDictionary(), ownMax);
    var s := Connection.InitialDecoder(RfcDictionary());
    Connection.InitiallySynced(RfcDictionary(), ownMax, s);
    last := Connection.ConnectionStaysInSync(e, s, events);
  }
}
