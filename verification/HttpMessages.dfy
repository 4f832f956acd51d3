/**
 * The checks of HTTP messages (lib/nghttp2_http.c; section 8.1 of RFC 7540): which header
 * blocks of requests and responses are accepted, and which runs of blocks and data.
 */
module HttpMessages {
  import opened Bytes
  import Text = HpackStatic

  /** The field names that are checked; hop-by-hop fields have no place in HTTP/2. */
  datatype Token = Authority | Method | Path | Scheme | Status | Host | ContentLength | HopByHop | Te | Other

  /**
   * A field: whether its name begins with a colon, which name it is, its value, whether
   * name and value have only allowed characters and whether the name has upper case letters.
   */
  datatype Header = Header(pseudo: bool, token: Token, value: seq<Byte>, nameOk: bool, valueOk: bool, upper: bool)
  {
    /** Known names have their colon or have none. */
    predicate Consistent()
    {
      && (token in {Authority, Method, Path, Scheme, Status} ==> pseudo)
      && (token in {Host, ContentLength, HopByHop, Te} ==> !pseudo)
    }

    /** Regular fields with bad characters are ignored. */
    predicate Kept() { nameOk && valueOk }
  }

  const Int64Max: int := 0x7fff_ffff_ffff_ffff

  // ------------------------------------------------------------------------- values

  predicate Digits(s: seq<Byte>) { forall i | 0 <= i < |s| :: 48 <= s[i] <= 57 }

  function Decimal(s: seq<Byte>): nat
    requires Digits(s)
  {
    if s == [] then 0 else 10 * Decimal(s[..|s| - 1]) + (s[|s| - 1] - 48)
  }

  /** The number a value stands for, or -1 if it is none of 63 bits. */
  function Parsed(s: seq<Byte>): (n: int)
    ensures -1 <= n <= Int64Max
  {
    if s != [] && Digits(s) && Decimal(s) <= Int64Max then Decimal(s) else -1
  }

  lemma {:induction false} PrefixIsSmaller(s: seq<Byte>, i: nat)
    requires Digits(s) && i <= |s|
    ensures Decimal(s[..i]) <= Decimal(s)
    decreases |s|
  {
    if i < |s| {
      var init := s[..|s| - 1];
      PrefixIsSmaller(init, i);
      assert init[..i] == s[..i];
    } else {
      assert s[..i] == s;
    }
  }

  /** parse_uint: its checks against overflow refuse exactly the numbers that are too large. */
  method ParseUint(s: seq<Byte>) returns (n: int)
    ensures n == Parsed(s)
  {
    if |s| == 0 {
      return -1;
    }
    n := 0;
    var i := 0;
    while i < |s|
      invariant 0 <= i <= |s| && Digits(s[..i]) && n == Decimal(s[..i]) && 0 <= n <= Int64Max
    {
      if !(48 <= s[i] <= 57) {
        return -1;
      }
      assert s[..i + 1][..i] == s[..i];
      if n > Int64Max / 10 || 10 * n > Int64Max - (s[i] - 48) {
        if Digits(s) { PrefixIsSmaller(s, i + 1); }
        return -1;
      }
      n := 10 * n + (s[i] - 48);
      i := i + 1;
    }
    assert s[..i] == s;
  }

  /** lws. */
  predicate Blank(s: seq<Byte>) { forall i | 0 <= i < |s| :: s[i] == 32 || s[i] == 9 }

  function Downcase(s: seq<Byte>): (r: seq<Byte>)
    ensures |r| == |s|
  {
    seq(|s|, i requires 0 <= i < |s| => if 65 <= s[i] <= 90 then s[i] + 32 else s[i])
  }

  predicate IsConnect(v: seq<Byte>) { v == Text.Ascii("CONNECT") }
  predicate IsHead(v: seq<Byte>) { v == Text.Ascii("HEAD") }
  predicate IsOptions(v: seq<Byte>) { v == Text.Ascii("OPTIONS") }
  predicate IsHttp(v: seq<Byte>) { Downcase(v) == Text.Ascii("http") || Downcase(v) == Text.Ascii("https") }
  predicate IsTrailers(v: seq<Byte>) { Downcase(v) == Text.Ascii("trailers") }
  predicate IsSlashed(v: seq<Byte>) { v != [] && v[0] == 47 }
  predicate IsStar(v: seq<Byte>) { v == [42] }

  // -------------------------------------------------------------------------- state

  /** http_flags, content_length, recv_content_length and status_code of a stream. */
  datatype State = State(
    seen: set<Token>,
    closed: bool,
    connect: bool,
    head: bool,
    options: bool,
    slashed: bool,
    star: bool,
    http: bool,
    expectFinal: bool,
    length: int,
    received: nat,
    status: int)

  const Fresh: State := State({}, false, false, false, false, false, false, false, false, -1, 0, -1)

  // ------------------------------------------------------------------- one header field

  /** check_pseudo_header. */
  function OnlyOnce(s: State, h: Header): Option<State>
  {
    if h.token in s.seen || Blank(h.value) then None else Some(s.(seen := s.seen + {h.token}))
  }

  /** The methods that matter. */
  datatype Verb = Head | Connect | Options | AnyVerb

  function VerbOf(v: seq<Byte>): Verb
  {
    if IsHead(v) then Head else if IsConnect(v) then Connect else if IsOptions(v) then Options else AnyVerb
  }

  /** A method is remembered; CONNECT is not allowed for a promised request, nor with a path or a scheme. */
  function WithVerb(s: State, verb: Verb, odd: bool): Option<State>
  {
    match verb
    case Head => Some(s.(head := true))
    case Connect => if !odd || Path in s.seen || Scheme in s.seen then None else Some(s.(connect := true))
    case Options => Some(s.(options := true))
    case AnyVerb => Some(s)
  }

  /** The part of http_request_on_header that depends on the name. */
  function RequestField(s: State, h: Header, odd: bool): Option<State>
  {
    match h.token
    case Authority => OnlyOnce(s, h)
    case Host => OnlyOnce(s, h)
    case Method =>
      (match OnlyOnce(s, h)
       case None => None
       case Some(t) => WithVerb(t, VerbOf(h.value), odd))
    case Path =>
      if s.connect then None
      else
        (match OnlyOnce(s, h)
         case None => None
         case Some(t) =>
           if IsSlashed(h.value) then Some(t.(slashed := true))
           else if IsStar(h.value) then Some(t.(star := true)) else Some(t))
    case Scheme =>
      if s.connect then None
      else
        (match OnlyOnce(s, h)
         case None => None
         case Some(t) => if IsHttp(h.value) then Some(t.(http := true)) else Some(t))
    case _ => CommonField(s, h)
  }

  /** The part of http_response_on_header that depends on the name. */
  function ResponseField(s: State, h: Header): Option<State>
  {
    match h.token
    case Status =>
      (match OnlyOnce(s, h)
       case None => None
       case Some(t) =>
         if |h.value| != 3 || Parsed(h.value) == -1 then None else Some(t.(status := Parsed(h.value))))
    case _ => CommonField(s, h)
  }

  /** What is checked in requests and responses alike. */
  function CommonField(s: State, h: Header): Option<State>
  {
    match h.token
    case ContentLength =>
      if s.length != -1 || Parsed(h.value) == -1 then None else Some(s.(length := Parsed(h.value)))
    case HopByHop => None
    case Te => if IsTrailers(h.value) then Some(s) else None
    case _ => if h.pseudo then None else Some(s)
  }

  /** nghttp2_http_on_header; an ignored field still closes the pseudo fields. */
  function OnHeader(s: State, h: Header, request: bool, odd: bool, trailer: bool): Option<State>
  {
    if !h.Kept() then
      if h.pseudo || (!h.nameOk && h.upper) then None else Some(s.(closed := true))
    else if h.pseudo && (trailer || s.closed) then None
    else
      match (if request then RequestField(s, h, odd) else ResponseField(s, h))
      case None => None
      case Some(t) => Some(if h.pseudo then t else t.(closed := true))
  }

  /** A whole header block. */
  function AfterFields(s: State, hs: seq<Header>, request: bool, odd: bool, trailer: bool): Option<State>
  {
    if hs == [] then Some(s)
    else
      match AfterFields(s, hs[..|hs| - 1], request, odd, trailer)
      case None => None
      case Some(t) => OnHeader(t, hs[|hs| - 1], request, odd, trailer)
  }

  // ------------------------------------------------------------- what a block should be

  /** The value of the last field with a name that is not ignored. */
  function Find(hs: seq<Header>, t: Token): Option<seq<Byte>>
  {
    if hs == [] then None
    else
      var h := hs[|hs| - 1];
      if h.Kept() && h.token == t then Some(h.value) else Find(hs[..|hs| - 1], t)
  }

  predicate Regular(hs: seq<Header>) { exists i :: 0 <= i < |hs| && !hs[i].pseudo }

  /** The names that may come only once. */
  function Unique(request: bool): set<Token>
  {
    if request then {Authority, Method, Path, Scheme, Host, ContentLength} else {Status, ContentLength}
  }

  /** A field that is right by itself. */
  predicate FieldOk(h: Header, request: bool, odd: bool)
  {
    if !h.Kept() then !h.pseudo && (h.nameOk || !h.upper)
    else
      match h.token
      case Authority => request && !Blank(h.value)
      case Path => request && !Blank(h.value)
      case Scheme => request && !Blank(h.value)
      case Method => request && !Blank(h.value) && (IsConnect(h.value) ==> odd)
      case Status => !request && !Blank(h.value) && |h.value| == 3 && Parsed(h.value) != -1
      case Host => request ==> !Blank(h.value)
      case ContentLength => Parsed(h.value) != -1
      case HopByHop => false
      case Te => IsTrailers(h.value)
      case Other => !h.pseudo
  }

  /** Pseudo fields come first, unique names once, and CONNECT has no path and no scheme. */
  predicate PairOk(g: Header, h: Header, request: bool)
  {
    && (h.pseudo ==> g.pseudo)
    && (g.Kept() && h.Kept() ==>
          && !(g.token == h.token && g.token in Unique(request))
          && !(request && g.token == Method && IsConnect(g.value) && h.token in {Path, Scheme})
          && !(request && h.token == Method && IsConnect(h.value) && g.token in {Path, Scheme}))
  }

  /** A header block that is right, whatever else it lacks. */
  predicate FieldsOk(hs: seq<Header>, request: bool, odd: bool)
  {
    && (forall i | 0 <= i < |hs| :: FieldOk(hs[i], request, odd))
    && (forall i, j | 0 <= i < j < |hs| :: PairOk(hs[i], hs[j], request))
  }

  lemma {:induction false} FindNone(hs: seq<Header>, t: Token)
    ensures Find(hs, t).None? <==> forall i | 0 <= i < |hs| :: !(hs[i].Kept() && hs[i].token == t)
    decreases |hs|
  {
    if hs != [] { FindNone(hs[..|hs| - 1], t); }
  }

  lemma {:induction false} FindSome(hs: seq<Header>, t: Token)
    requires Find(hs, t).Some?
    ensures exists i :: 0 <= i < |hs| && hs[i].Kept() && hs[i].token == t && hs[i].value == Find(hs, t).value
    decreases |hs|
  {
    var n := |hs| - 1;
    if hs[n].Kept() && hs[n].token == t {
    } else {
      FindSome(hs[..n], t);
      var i :| 0 <= i < n && hs[..n][i].Kept() && hs[..n][i].token == t && hs[..n][i].value == Find(hs, t).value;
      assert hs[i].Kept();
    }
  }

  /** A unique name has one value. */
  lemma FindIs(hs: seq<Header>, request: bool, odd: bool, t: Token, i: nat)
    requires FieldsOk(hs, request, odd) && t in Unique(request) && i < |hs| && hs[i].Kept() && hs[i].token == t
    ensures Find(hs, t) == Some(hs[i].value)
  {
    FindNone(hs, t);
    FindSome(hs, t);
    var j :| 0 <= j < |hs| && hs[j].Kept() && hs[j].token == t && hs[j].value == Find(hs, t).value;
    assert i < j ==> PairOk(hs[i], hs[j], request);
    assert j < i ==> PairOk(hs[j], hs[i], request);
  }

  // -------------------------------------------------------------- accepted iff it is right

  /** Where a header block may begin. */
  predicate AtStart(s: State, request: bool)
  {
    s.seen == {} && !s.closed && s.length == -1 && !s.slashed && !s.star && !s.http && (request ==> !s.connect)
  }

  predicate Is(v: Option<seq<Byte>>, p: seq<Byte> -> bool) { v.Some? && p(v.value) }

  /** The names seen that may come only once, but for the content length. */
  function Seen(hs: seq<Header>, request: bool): set<Token>
  {
    set t | t in Unique(request) - {ContentLength} && Find(hs, t).Some?
  }

  /** What is remembered of a header block. */
  function Summary(s: State, hs: seq<Header>, request: bool): State
  {
    var verb := if request then Find(hs, Method) else None;
    var path := if request then Find(hs, Path) else None;
    var length, status := Find(hs, ContentLength), Find(hs, Status);
    State(
      Seen(hs, request),
      Regular(hs),
      s.connect || Is(verb, IsConnect),
      s.head || Is(verb, IsHead),
      s.options || Is(verb, IsOptions),
      Is(path, IsSlashed),
      Is(path, IsStar),
      request && Is(Find(hs, Scheme), IsHttp),
      s.expectFinal,
      if length.Some? then Parsed(length.value) else -1,
      s.received,
      if !request && status.Some? then Parsed(status.value) else s.status)
  }

  lemma EmptySummary(s: State, request: bool)
    requires AtStart(s, request)
    ensures Summary(s, [], request) == s
  {}

  /** A field may follow a block that is right. */
  predicate MayFollow(hs: seq<Header>, h: Header, request: bool, odd: bool)
  {
    FieldOk(h, request, odd) && forall i | 0 <= i < |hs| :: PairOk(hs[i], h, request)
  }

  lemma FieldsOkNext(hs: seq<Header>, h: Header, request: bool, odd: bool)
    ensures FieldsOk(hs + [h], request, odd) <==> FieldsOk(hs, request, odd) && MayFollow(hs, h, request, odd)
  {
    var all := hs + [h];
    if FieldsOk(all, request, odd) {
      forall i | 0 <= i < |hs| ensures FieldOk(hs[i], request, odd) && PairOk(hs[i], h, request) {
        assert all[i] == hs[i] && all[|hs|] == h;
        assert FieldOk(all[i], request, odd) && PairOk(all[i], all[|hs|], request);
      }
      forall i, j | 0 <= i < j < |hs| ensures PairOk(hs[i], hs[j], request) { assert PairOk(all[i], all[j], request); }
      assert FieldOk(all[|hs|], request, odd);
    }
  }

  /** The same, as it can be told from what is remembered. */
  lemma MayFollowIff(hs: seq<Header>, h: Header, request: bool, odd: bool)
    requires FieldsOk(hs, request, odd)
    ensures MayFollow(hs, h, request, odd) <==>
      && FieldOk(h, request, odd) && (h.pseudo ==> !Regular(hs))
      && (h.Kept() && h.token in Unique(request) ==> Find(hs, h.token).None?)
      && (h.Kept() && request && h.token in {Path, Scheme} ==> !Is(Find(hs, Method), IsConnect))
      && (h.Kept() && request && h.token == Method && IsConnect(h.value) ==> Find(hs, Path).None? && Find(hs, Scheme).None?)
  {
    FindNone(hs, h.token);
    FindNone(hs, Path);
    FindNone(hs, Scheme);
    forall i | 0 <= i < |hs| && request && hs[i].Kept() && hs[i].token == Method ensures Find(hs, Method) == Some(hs[i].value) {
      FindIs(hs, request, odd, Method, i);
    }
    if Find(hs, Method).Some? { FindSome(hs, Method); }
  }

  lemma FindNext(hs: seq<Header>, h: Header, t: Token)
    ensures Find(hs + [h], t) == if h.Kept() && h.token == t then Some(h.value) else Find(hs, t)
  {
    assert (hs + [h])[..|hs|] == hs;
  }

  lemma RegularNext(hs: seq<Header>, h: Header)
    ensures Regular(hs + [h]) <==> Regular(hs) || !h.pseudo
  {
    var all := hs + [h];
    if Regular(hs) {
      var i :| 0 <= i < |hs| && !hs[i].pseudo;
      assert !all[i].pseudo;
    }
    if !h.pseudo { assert !all[|hs|].pseudo; }
  }

  /** What a further field adds to what is remembered. */
  predicate Adds(s: State, was: State, now: State, h: Header, request: bool)
  {
    if !h.Kept() then now == was.(closed := was.closed || !h.pseudo)
    else
      && now.closed == (was.closed || !h.pseudo) && now.expectFinal == was.expectFinal && now.received == was.received
      && now.seen == (if h.token in Unique(request) - {ContentLength} then was.seen + {h.token} else was.seen)
      && now.length == (if h.token == ContentLength then Parsed(h.value) else was.length)
      && now.status == (if !request && h.token == Status then Parsed(h.value) else was.status)
      && (!(request && h.token == Method) ==>
            now.connect == was.connect && now.head == was.head && now.options == was.options)
      && (request && h.token == Method ==>
            && now.connect == (s.connect || IsConnect(h.value)) && now.head == (s.head || IsHead(h.value))
            && now.options == (s.options || IsOptions(h.value)))
      && now.slashed == (if request && h.token == Path then IsSlashed(h.value) else was.slashed)
      && now.star == (if request && h.token == Path then IsStar(h.value) else was.star)
      && now.http == (if request && h.token == Scheme then IsHttp(h.value) else was.http)
  }

  lemma SeenNext(hs: seq<Header>, h: Header, request: bool)
    ensures Seen(hs + [h], request) ==
      if h.Kept() && h.token in Unique(request) - {ContentLength} then Seen(hs, request) + {h.token} else Seen(hs, request)
  {
    forall t ensures Find(hs + [h], t) == if h.Kept() && h.token == t then Some(h.value) else Find(hs, t) { FindNext(hs, h, t); }
  }

  lemma SummaryNext(s: State, hs: seq<Header>, h: Header, request: bool)
    ensures Adds(s, Summary(s, hs, request), Summary(s, hs + [h], request), h, request)
  {
    RegularNext(hs, h);
    SeenNext(hs, h, request);
    FindNext(hs, h, Method);
    FindNext(hs, h, Path);
    FindNext(hs, h, Scheme);
    FindNext(hs, h, ContentLength);
    FindNext(hs, h, Status);
  }

  lemma VerbsDiffer(v: seq<Byte>)
    ensures IsConnect(v) ==> !IsHead(v) && !IsOptions(v)
    ensures IsHead(v) ==> !IsOptions(v)
  {
    assert IsOptions(v) ==> v[0] == 79;
    assert IsConnect(v) ==> v[0] == 67;
  }

  /** A field that was not seen yet left nothing to remember. */
  predicate Unseen(s: State, was: State, request: bool)
  {
    && (request && Method !in was.seen ==> was.connect == s.connect && was.head == s.head && was.options == s.options)
    && (request && Path !in was.seen ==> !was.slashed && !was.star) && (request && Scheme !in was.seen ==> !was.http)
    && ContentLength !in was.seen
  }

  /** A field may come next, as far as can be told from what is remembered. */
  predicate Next(was: State, h: Header, request: bool, odd: bool)
  {
    && FieldOk(h, request, odd) && (h.pseudo ==> !was.closed) && (h.token == ContentLength ==> was.length == -1)
    && (h.token in Unique(request) ==> h.token !in was.seen)
    && (request && h.token in {Path, Scheme} ==> !was.connect)
    && (request && h.token == Method && IsConnect(h.value) ==> Path !in was.seen && Scheme !in was.seen)
  }

  lemma RequestStep(s: State, was: State, now: State, h: Header, odd: bool)
    requires h.Consistent() && h.Kept() && Adds(s, was, now, h, true) && Unseen(s, was, true)
    ensures OnHeader(was, h, true, odd, false) == if Next(was, h, true, odd) then Some(now) else None
  {
    if h.token == Method {
      MethodStep(s, was, now, h, odd);
    } else if h.token in {Path, Scheme} {
      TargetStep(s, was, now, h, odd);
    } else if h.token in {Authority, Host} {
      HostStep(s, was, now, h, odd);
    } else {
      OtherStep(s, was, now, h, odd);
    }
  }

  lemma MethodStep(s: State, was: State, now: State, h: Header, odd: bool)
    requires h.pseudo && h.Kept() && Adds(s, was, now, h, true) && Unseen(s, was, true) && h.token == Method
    ensures OnHeader(was, h, true, odd, false) == if Next(was, h, true, odd) then Some(now) else None
  {
    VerbsDiffer(h.value);
  }

  lemma TargetStep(s: State, was: State, now: State, h: Header, odd: bool)
    requires h.pseudo && h.Kept() && Adds(s, was, now, h, true) && Unseen(s, was, true) && h.token in {Path, Scheme}
    ensures OnHeader(was, h, true, odd, false) == if Next(was, h, true, odd) then Some(now) else None
  {
    assert IsSlashed(h.value) ==> !IsStar(h.value);
  }

  lemma HostStep(s: State, was: State, now: State, h: Header, odd: bool)
    requires h.Consistent() && h.Kept() && Adds(s, was, now, h, true) && Unseen(s, was, true) && h.token in {Authority, Host}
    ensures OnHeader(was, h, true, odd, false) == if Next(was, h, true, odd) then Some(now) else None
  {}

  lemma OtherStep(s: State, was: State, now: State, h: Header, odd: bool)
    requires h.Consistent() && h.Kept() && Adds(s, was, now, h, true) && Unseen(s, was, true)
    requires h.token !in {Method, Path, Scheme, Authority, Host}
    ensures OnHeader(was, h, true, odd, false) == if Next(was, h, true, odd) then Some(now) else None
  {}

  lemma ResponseStep(s: State, was: State, now: State, h: Header, odd: bool)
    requires h.Consistent() && h.Kept() && Adds(s, was, now, h, false) && Unseen(s, was, false)
    ensures OnHeader(was, h, false, odd, false) == if Next(was, h, false, odd) then Some(now) else None
  {
    if h.token == Status { StatusStep(s, was, now, h, odd); } else { PlainStep(s, was, now, h, odd); }
  }

  lemma PlainStep(s: State, was: State, now: State, h: Header, odd: bool)
    requires h.Consistent() && h.Kept() && Adds(s, was, now, h, false) && Unseen(s, was, false) && h.token != Status
    ensures OnHeader(was, h, false, odd, false) == if Next(was, h, false, odd) then Some(now) else None
  {}

  lemma StatusStep(s: State, was: State, now: State, h: Header, odd: bool)
    requires h.pseudo && h.Kept() && Adds(s, was, now, h, false) && Unseen(s, was, false) && h.token == Status
    ensures OnHeader(was, h, false, odd, false) == if Next(was, h, false, odd) then Some(now) else None
  {}

  lemma NextIff(s: State, hs: seq<Header>, h: Header, request: bool, odd: bool)
    requires AtStart(s, request) && FieldsOk(hs, request, odd) && h.Kept()
    ensures Next(Summary(s, hs, request), h, request, odd) <==> MayFollow(hs, h, request, odd)
    ensures Unseen(s, Summary(s, hs, request), request)
  {
    MayFollowIff(hs, h, request, odd);
    LengthSeen(hs, request, odd);
  }

  /** A content length that was accepted is not -1. */
  lemma LengthSeen(hs: seq<Header>, request: bool, odd: bool)
    requires FieldsOk(hs, request, odd)
    ensures Find(hs, ContentLength).Some? ==> Parsed(Find(hs, ContentLength).value) != -1
  {
    if Find(hs, ContentLength).Some? {
      FindSome(hs, ContentLength);
      var i :| 0 <= i < |hs| && hs[i].Kept() && hs[i].token == ContentLength && hs[i].value == Find(hs, ContentLength).value;
      assert FieldOk(hs[i], request, odd);
    }
  }

  lemma HeaderStep(s: State, hs: seq<Header>, h: Header, request: bool, odd: bool)
    requires AtStart(s, request) && FieldsOk(hs, request, odd) && h.Consistent()
    ensures
      var r := OnHeader(Summary(s, hs, request), h, request, odd, false);
      && (r.Some? <==> MayFollow(hs, h, request, odd))
      && (r.Some? ==> r == Some(Summary(s, hs + [h], request)))
  {
    var was, now := Summary(s, hs, request), Summary(s, hs + [h], request);
    SummaryNext(s, hs, h, request);
    if !h.Kept() {
      MayFollowIff(hs, h, request, odd);
    } else {
      NextIff(s, hs, h, request, odd);
      if request { RequestStep(s, was, now, h, odd); } else { ResponseStep(s, was, now, h, odd); }
    }
  }

  /** A header block is accepted iff it is right, and then this is what is remembered of it. */
  lemma {:induction false} FieldsAcceptedIff(s: State, hs: seq<Header>, request: bool, odd: bool)
    requires AtStart(s, request) && forall h | h in hs :: h.Consistent()
    ensures AfterFields(s, hs, request, odd, false) ==
      if FieldsOk(hs, request, odd) then Some(Summary(s, hs, request)) else None
    decreases |hs|
  {
    if hs == [] {
      EmptySummary(s, request);
    } else {
      var init, h := hs[..|hs| - 1], hs[|hs| - 1];
      FieldsAcceptedIff(s, init, request, odd);
      assert hs == init + [h];
      FieldsOkNext(init, h, request, odd);
      if FieldsOk(init, request, odd) { HeaderStep(s, init, h, request, odd); }
    }
  }

  // ------------------------------------------------------------------ complete requests

  /** nghttp2_http_on_request_headers; a promised request makes room for its response. */
  function OnRequestHeaders(s: State, push: bool): Option<State>
  {
    if s.connect && Authority !in s.seen then None
    else if !s.connect && (Method !in s.seen || Path !in s.seen || Scheme !in s.seen) then None
    else if !s.connect && Authority !in s.seen && Host !in s.seen then None
    else if !s.connect && !(!s.http || s.slashed || (s.options && s.star)) then None
    else
      var t := if s.connect then s.(length := -1) else s;
      Some(if push then Fresh.(connect := t.connect, head := t.head, options := t.options, received := t.received, status := t.status)
           else t)
  }

  /**
   * What a request must have: CONNECT an authority, the others method, scheme, path and
   * authority or host, and for http and https a path that begins with a slash, or * for OPTIONS.
   */
  predicate RequestComplete(hs: seq<Header>)
  {
    if Is(Find(hs, Method), IsConnect) then Find(hs, Authority).Some?
    else
      && Find(hs, Method).Some? && Find(hs, Path).Some? && Find(hs, Scheme).Some?
      && (Find(hs, Authority).Some? || Find(hs, Host).Some?)
      && (Is(Find(hs, Scheme), IsHttp) ==>
            Is(Find(hs, Path), IsSlashed) || (Is(Find(hs, Method), IsOptions) && Is(Find(hs, Path), IsStar)))
  }

  /** The header block of a request is accepted iff its fields are right and it has those it must have. */
  lemma RequestAcceptedIff(hs: seq<Header>, odd: bool, push: bool)
    requires forall h | h in hs :: h.Consistent()
    ensures
      var r := AfterFields(Fresh, hs, true, odd, false);
      (r.Some? && OnRequestHeaders(r.value, push).Some?) <==> FieldsOk(hs, true, odd) && RequestComplete(hs)
  {
    FieldsAcceptedIff(Fresh, hs, true, odd);
    CompleteIff(hs, push);
  }

  lemma CompleteIff(hs: seq<Header>, push: bool)
    ensures OnRequestHeaders(Summary(Fresh, hs, true), push).Some? <==> RequestComplete(hs)
  {
    var s := Summary(Fresh, hs, true);
    assert forall t | t in {Authority, Method, Path, Scheme, Host} :: t in s.seen <==> Find(hs, t).Some?;
    assert s.connect == Is(Find(hs, Method), IsConnect) && s.http == Is(Find(hs, Scheme), IsHttp);
  }

  // -------------------------------------------------------------------- response runs

  /** expect_response_body. */
  predicate ExpectsBody(s: State) { !s.head && s.status / 100 != 1 && s.status != 304 && s.status != 204 }

  /** nghttp2_http_on_response_headers. */
  function OnResponseHeaders(s: State): Option<State>
  {
    if Status !in s.seen then None
    else if s.status / 100 == 1 then
      Some(Fresh.(connect := s.connect, head := s.head, options := s.options, expectFinal := true, received := s.received))
    else
      var t := s.(expectFinal := false);
      Some(if !ExpectsBody(t) then t.(length := 0) else if t.connect then t.(length := -1) else t)
  }

  /** nghttp2_http_on_remote_end_stream. */
  predicate EndOk(s: State) { !s.expectFinal && (s.length == -1 || s.length == s.received) }

  /** nghttp2_http_on_data_chunk. */
  function OnData(s: State, n: nat): Option<State>
  {
    var t := s.(received := s.received + n);
    if t.expectFinal || (t.length != -1 && t.received > t.length) then None else Some(t)
  }

  datatype Event = Block(hs: seq<Header>, end: bool) | Data(n: nat, end: bool)

  /** Where a response is: whether a header block came, and whether the stream ended. */
  datatype Stage = Stage(s: State, started: bool, ended: bool)

  /** The end of the stream must be in order. */
  function Ending(r: Option<State>, end: bool): Option<Stage>
  {
    if r.None? || (end && !EndOk(r.value)) then None else Some(Stage(r.value, true, end))
  }

  /** Header blocks after the final response are trailers; they must end the stream. */
  function OnEvent(g: Stage, e: Event): Option<Stage>
  {
    if g.ended then None
    else
      match e
      case Data(n, end) => if !g.started then None else Ending(if n == 0 then Some(g.s) else OnData(g.s, n), end)
      case Block(hs, end) =>
        var trailer := g.started && !g.s.expectFinal;
        var t := AfterFields(g.s, hs, false, false, trailer);
        Ending(if t.None? then None else if !trailer then OnResponseHeaders(t.value) else if end then t else None, end)
  }

  function AfterEvents(g: Stage, es: seq<Event>): Option<Stage>
  {
    if es == [] then Some(g)
    else
      match AfterEvents(g, es[..|es| - 1])
      case None => None
      case Some(t) => OnEvent(t, es[|es| - 1])
  }

  /** The status code of a header block that is right; its hundreds are its class. */
  function Code(hs: seq<Header>): int { if Find(hs, Status).Some? then Parsed(Find(hs, Status).value) else -1 }

  predicate ResponseBlock(e: Event) { e.Block? && FieldsOk(e.hs, false, false) && Find(e.hs, Status).Some? }

  predicate Interim(e: Event) { ResponseBlock(e) && Code(e.hs) / 100 == 1 && !e.end }

  /** What may come before the final block: an empty DATA frame is not noticed. */
  predicate Early(e: Event) { Interim(e) || (e.Data? && e.n == 0 && !e.end) }

  predicate Final(e: Event) { ResponseBlock(e) && Code(e.hs) / 100 != 1 }

  function Octets(es: seq<Event>): nat
  {
    if es == [] then 0 else Octets(es[..|es| - 1]) + if es[|es| - 1].Data? then es[|es| - 1].n else 0
  }

  /** The content length a final response stands for: none of its body for HEAD, 204 and 304, no length for CONNECT. */
  function Length(head: bool, connect: bool, hs: seq<Header>): int
  {
    if head || Code(hs) == 204 || Code(hs) == 304 then 0
    else if connect then -1
    else if Find(hs, ContentLength).Some? then Parsed(Find(hs, ContentLength).value) else -1
  }

  // ----------------------------------------------------------------------- trailers

  predicate AllRegular(hs: seq<Header>) { forall i | 0 <= i < |hs| :: !hs[i].pseudo }

  /** What may not come again in trailers: the content length, and the host of a request. */
  predicate NotAgain(s: State, hs: seq<Header>, request: bool)
  {
    && (Find(hs, ContentLength).Some? ==> s.length == -1)
    && (request && Find(hs, Host).Some? ==> Host !in s.seen)
  }

  /** What trailers make of `s`. */
  predicate Trailed(s: State, t: State, hs: seq<Header>, request: bool)
  {
    && t.length == (if Find(hs, ContentLength).Some? then Parsed(Find(hs, ContentLength).value) else s.length)
    && (request ==> (Host in t.seen <==> Host in s.seen || Find(hs, Host).Some?))
    && t.expectFinal == s.expectFinal && t.received == s.received
  }

  /** A regular field that may come next in trailers. */
  predicate MayTrail(s: State, hs: seq<Header>, h: Header, request: bool, odd: bool)
  {
    && MayFollow(hs, h, request, odd) && !h.pseudo && (h.Kept() && h.token == ContentLength ==> s.length == -1)
    && (request && h.Kept() && h.token == Host ==> Host !in s.seen)
  }

  /** What the field `h` does in trailers, as far as can be told from what is remembered. */
  predicate MayTrailNext(t: State, h: Header, request: bool, odd: bool)
  {
    && FieldOk(h, request, odd) && !h.pseudo && (h.Kept() && h.token == ContentLength ==> t.length == -1)
    && (request && h.Kept() && h.token == Host ==> Host !in t.seen)
  }

  predicate TrailedBy(t: State, u: State, h: Header, request: bool)
  {
    && u.length == (if h.Kept() && h.token == ContentLength then Parsed(h.value) else t.length)
    && (request ==> (Host in u.seen <==> Host in t.seen || (h.Kept() && h.token == Host)))
    && u.expectFinal == t.expectFinal && u.received == t.received
  }

  lemma OneTrailer(t: State, h: Header, request: bool, odd: bool)
    requires h.Consistent()
    ensures
      var r := OnHeader(t, h, request, odd, true);
      (r.Some? <==> MayTrailNext(t, h, request, odd)) && (r.Some? ==> TrailedBy(t, r.value, h, request))
  {
    if h.Kept() && !h.pseudo {
      if h.token == Host { HostTrailer(t, h, request, odd); } else { CommonTrailer(t, h, request, odd); }
    }
  }

  lemma HostTrailer(t: State, h: Header, request: bool, odd: bool)
    requires h.Kept() && !h.pseudo && h.token == Host
    ensures
      var r := if request then RequestField(t, h, odd) else ResponseField(t, h);
      (r.Some? <==> MayTrailNext(t, h, request, odd)) && (r.Some? ==> TrailedBy(t, r.value, h, request))
  {}

  lemma CommonTrailer(t: State, h: Header, request: bool, odd: bool)
    requires h.Kept() && !h.pseudo && h.Consistent() && h.token != Host
    ensures
      var r := if request then RequestField(t, h, odd) else ResponseField(t, h);
      (r.Some? <==> MayTrailNext(t, h, request, odd)) && (r.Some? ==> TrailedBy(t, r.value, h, request))
  {
    assert h.token in {ContentLength, HopByHop, Te, Other};
    var r := if request then RequestField(t, h, odd) else ResponseField(t, h);
    assert r == CommonField(t, h);
  }

  lemma TrailerStep(s: State, t: State, hs: seq<Header>, h: Header, request: bool, odd: bool)
    requires h.Consistent() && FieldsOk(hs, request, odd) && AllRegular(hs) && Trailed(s, t, hs, request)
    ensures
      var r := OnHeader(t, h, request, odd, true);
      (r.Some? <==> MayTrail(s, hs, h, request, odd)) && (r.Some? ==> Trailed(s, r.value, hs + [h], request))
  {
    OneTrailer(t, h, request, odd);
    MayFollowIff(hs, h, request, odd);
    LengthSeen(hs, request, odd);
    FindNext(hs, h, ContentLength);
    FindNext(hs, h, Host);
  }

  /** Trailers are accepted iff they are right by themselves and repeat nothing they may not. */
  lemma {:induction false} TrailersAcceptedIff(s: State, hs: seq<Header>, request: bool, odd: bool)
    requires forall h | h in hs :: h.Consistent()
    ensures
      var r := AfterFields(s, hs, request, odd, true);
      && (r.Some? <==> FieldsOk(hs, request, odd) && AllRegular(hs) && NotAgain(s, hs, request))
      && (r.Some? ==> Trailed(s, r.value, hs, request))
    decreases |hs|
  {
    if hs != [] {
      var init, h := hs[..|hs| - 1], hs[|hs| - 1];
      TrailersAcceptedIff(s, init, request, odd);
      assert hs == init + [h];
      FieldsOkNext(init, h, request, odd);
      TrailersNext(s, init, h, request, odd);
      if AfterFields(s, init, request, odd, true).Some? {
        TrailerStep(s, AfterFields(s, init, request, odd, true).value, init, h, request, odd);
      }
    }
  }

  lemma TrailersNext(s: State, hs: seq<Header>, h: Header, request: bool, odd: bool)
    ensures AllRegular(hs + [h]) <==> AllRegular(hs) && !h.pseudo
    ensures MayFollow(hs, h, request, odd) && FieldsOk(hs, request, odd) ==>
      (NotAgain(s, hs + [h], request) <==>
        && NotAgain(s, hs, request) && (h.Kept() && h.token == ContentLength ==> s.length == -1)
        && (request && h.Kept() && h.token == Host ==> Host !in s.seen))
  {
    var all := hs + [h];
    assert all[|hs|] == h && forall i | 0 <= i < |hs| :: all[i] == hs[i];
    FindNext(hs, h, ContentLength);
    FindNext(hs, h, Host);
  }

  // ------------------------------------------------------------------------ bodies

  /** Trailers after a header block with the fields `first`, for a content length of `length`. */
  predicate TrailersOk(e: Event, first: seq<Header>, length: int, request: bool, odd: bool)
  {
    && e.Block? && e.end && FieldsOk(e.hs, request, odd) && AllRegular(e.hs)
    && (Find(e.hs, ContentLength).Some? ==> length == -1)
    && (request && Find(e.hs, Host).Some? ==> Find(first, Host).None?)
  }

  /** The content length in the end: trailers may give one. */
  function LastLength(es: seq<Event>, k: nat, length: int): int
    requires k < |es|
  {
    var e := es[|es| - 1];
    if k < |es| - 1 && e.Block? && Find(e.hs, ContentLength).Some? then Parsed(Find(e.hs, ContentLength).value) else length
  }

  /**
   * After the header block at `k` come data and perhaps trailers; only the last event ends
   * the stream; never more than the content length comes, and in the end exactly that.
   */
  predicate BodyOk(es: seq<Event>, k: nat, length: int, request: bool, odd: bool)
    requires k < |es| && es[k].Block?
  {
    && (forall i | k < i < |es| :: es[i].Data? || TrailersOk(es[i], es[k].hs, length, request, odd))
    && (forall i | k <= i < |es| - 1 :: !es[i].end)
    && (length != -1 ==> Octets(es) <= length)
    && (es[|es| - 1].end ==> LastLength(es, k, length) == -1 || Octets(es) == LastLength(es, k, length))
  }

  /** What is remembered in a body. */
  predicate InBody(es: seq<Event>, k: nat, length: int, request: bool, odd: bool, g: Stage)
    requires k < |es| && es[k].Block?
  {
    && g.started && !g.s.expectFinal && g.s.received == Octets(es) && g.ended == es[|es| - 1].end
    && (!g.ended ==> g.s.length == length && (request ==> (Host in g.s.seen <==> Find(es[k].hs, Host).Some?)))
  }

  /** Data and trailers, in requests and responses alike. */
  function OnBodyEvent(g: Stage, e: Event, request: bool, odd: bool): Option<Stage>
  {
    if g.ended then None
    else
      match e
      case Data(n, end) => Ending(if n == 0 then Some(g.s) else OnData(g.s, n), end)
      case Block(hs, end) =>
        var t := AfterFields(g.s, hs, request, odd, true);
        Ending(if t.None? then None else if end then t else None, end)
  }

  /** A body without its last event is a body. */
  lemma BodyPrefix(es: seq<Event>, n: nat, k: nat, length: int, request: bool, odd: bool)
    requires k < n && n + 1 == |es| && es[k].Block? && BodyOk(es, k, length, request, odd)
    ensures BodyOk(es[..n], k, length, request, odd) && !es[..n][n - 1].end
  {
    var init := es[..n];
    assert forall i | 0 <= i < n :: init[i] == es[i];
  }

  lemma DataStep(es: seq<Event>, n: nat, k: nat, length: int, request: bool, odd: bool, g: Stage)
    requires k < n && n + 1 == |es| && es[k].Block? && es[n].Data? && length >= -1
    requires BodyOk(es[..n], k, length, request, odd) && InBody(es[..n], k, length, request, odd, g) && !g.ended
    ensures
      var r := OnBodyEvent(g, es[n], request, odd);
      (r.Some? <==> BodyOk(es, k, length, request, odd)) && (r.Some? ==> InBody(es, k, length, request, odd, r.value))
  {
    var init := es[..n];
    assert forall i | 0 <= i < n :: init[i] == es[i];
  }

  lemma TrailersStep(es: seq<Event>, n: nat, k: nat, length: int, request: bool, odd: bool, g: Stage)
    requires k < n && n + 1 == |es| && es[k].Block? && es[n].Block? && forall h | h in es[n].hs :: h.Consistent()
    requires BodyOk(es[..n], k, length, request, odd) && InBody(es[..n], k, length, request, odd, g) && !g.ended
    ensures
      var r := OnBodyEvent(g, es[n], request, odd);
      (r.Some? <==> BodyOk(es, k, length, request, odd)) && (r.Some? ==> InBody(es, k, length, request, odd, r.value))
  {
    var init := es[..n];
    assert forall i | 0 <= i < n :: init[i] == es[i];
    assert init[k] == es[k];
    TrailersOutcome(g, es[n], es[k].hs, length, request, odd);
  }

  lemma TrailersOutcome(g: Stage, e: Event, first: seq<Header>, length: int, request: bool, odd: bool)
    requires e.Block? && (forall h | h in e.hs :: h.Consistent()) && !g.ended && !g.s.expectFinal && g.s.length == length
    requires request ==> (Host in g.s.seen <==> Find(first, Host).Some?)
    ensures
      var r := OnBodyEvent(g, e, request, odd);
      var last := if Find(e.hs, ContentLength).Some? then Parsed(Find(e.hs, ContentLength).value) else length;
      && (r.Some? <==> TrailersOk(e, first, length, request, odd) && (last == -1 || g.s.received == last))
      && (r.Some? ==> r.value.started && r.value.ended && !r.value.s.expectFinal && r.value.s.received == g.s.received)
  {
    TrailersAcceptedIff(g.s, e.hs, request, odd);
  }

  /** A body goes on iff what comes belongs to it. */
  lemma BodyStep(es: seq<Event>, n: nat, k: nat, length: int, request: bool, odd: bool, g: Stage)
    requires k < n && n + 1 == |es| && es[k].Block? && length >= -1
    requires es[n].Block? ==> forall h | h in es[n].hs :: h.Consistent()
    requires BodyOk(es[..n], k, length, request, odd) && InBody(es[..n], k, length, request, odd, g)
    ensures
      var r := OnBodyEvent(g, es[n], request, odd);
      (r.Some? <==> BodyOk(es, k, length, request, odd)) && (r.Some? ==> InBody(es, k, length, request, odd, r.value))
  {
    if g.ended {
      if BodyOk(es, k, length, request, odd) { BodyPrefix(es, n, k, length, request, odd); }
    } else if es[n].Data? {
      DataStep(es, n, k, length, request, odd, g);
    } else {
      TrailersStep(es, n, k, length, request, odd, g);
    }
  }

  // ------------------------------------------------------------------ runs of responses

  /** The start of a response to a request with the given method. */
  function Opening(verb: Verb): Stage
  {
    Stage(Fresh.(head := verb.Head?, connect := verb.Connect?, options := verb.Options?), false, false)
  }

  /** The position of the first final header block, or the number of events if there is none. */
  function FinalAt(es: seq<Event>): (k: nat)
    ensures k <= |es| && (k < |es| ==> Final(es[k]))
  {
    if es == [] then 0
    else
      var k := FinalAt(es[..|es| - 1]);
      if k < |es| - 1 then k else if Final(es[|es| - 1]) then |es| - 1 else |es|
  }

  /** Interim blocks, one final block, then its body. */
  predicate Response(es: seq<Event>, verb: Verb)
  {
    es != [] ==>
      var k := FinalAt(es);
      && es[0].Block? && (forall i | 0 <= i < k :: Early(es[i]))
      && (k < |es| ==> BodyOk(es, k, Length(verb.Head?, verb.Connect?, es[k].hs), false, false))
  }

  /** What is remembered after the events of a response. */
  ghost predicate Tells(es: seq<Event>, g: Stage, verb: Verb)
  {
    var k := FinalAt(es);
    if es == [] then g == Opening(verb)
    else if k == |es| then
      && g.started && !g.ended && g.s.expectFinal && AtStart(g.s, false) && g.s.received == 0 == Octets(es)
      && g.s.head == verb.Head? && g.s.connect == verb.Connect?
    else InBody(es, k, Length(verb.Head?, verb.Connect?, es[k].hs), false, false, g)
  }

  /**
   * A run is accepted iff it is a response, of which all octets of the content length have
   * come once it has ended.
   */
  lemma {:induction false} ResponseAcceptedIff(es: seq<Event>, verb: Verb)
    requires forall e | e in es :: e.Block? ==> forall h | h in e.hs :: h.Consistent()
    ensures
      var r := AfterEvents(Opening(verb), es);
      (r.Some? <==> Response(es, verb)) && (r.Some? ==> Tells(es, r.value, verb))
    decreases |es|
  {
    if es != [] {
      var n := |es| - 1;
      assert forall e | e in es[..n] :: e in es;
      ResponseAcceptedIff(es[..n], verb);
      assert es[n] in es;
      if Response(es, verb) { ResponsePrefix(es, n, verb); }
      if Response(es[..n], verb) {
        ResponseGoesOn(es, n, AfterEvents(Opening(verb), es[..n]).value, verb);
      }
    }
  }

  lemma ResponsePrefix(es: seq<Event>, n: nat, verb: Verb)
    requires n + 1 == |es| && Response(es, verb)
    ensures Response(es[..n], verb)
  {
    var init, k := es[..n], FinalAt(es);
    assert forall i | 0 <= i < n :: init[i] == es[i];
    if k < n { BodyPrefix(es, n, k, Length(verb.Head?, verb.Connect?, es[k].hs), false, false); }
  }

  lemma ResponseGoesOn(es: seq<Event>, n: nat, g: Stage, verb: Verb)
    requires n + 1 == |es| && Response(es[..n], verb) && Tells(es[..n], g, verb)
    requires es[n].Block? ==> forall h | h in es[n].hs :: h.Consistent()
    ensures
      var r := OnEvent(g, es[n]);
      (r.Some? <==> Response(es, verb)) && (r.Some? ==> Tells(es, r.value, verb))
  {
    var init, k := es[..n], FinalAt(es[..n]);
    assert forall i | 0 <= i < n :: init[i] == es[i];
    if k < n {
      BodyStep(es, n, k, Length(verb.Head?, verb.Connect?, es[k].hs), false, false, g);
    } else if es[n].Block? {
      BlockStep(es, n, g, verb);
    } else {
      assert !Final(es[n]);
    }
  }

  lemma BlockStep(es: seq<Event>, n: nat, g: Stage, verb: Verb)
    requires n + 1 == |es| && Response(es[..n], verb) && Tells(es[..n], g, verb) && FinalAt(es[..n]) == n
    requires es[n].Block? && forall h | h in es[n].hs :: h.Consistent()
    ensures
      var r := OnEvent(g, es[n]);
      (r.Some? <==> Response(es, verb)) && (r.Some? ==> Tells(es, r.value, verb))
  {
    var init := es[..n];
    BlockOutcome(g, es[n]);
    assert forall i | 0 <= i < n :: init[i] == es[i];
    assert FinalAt(es) == (if Final(es[n]) then n else n + 1) && Octets(es) == Octets(init);
    assert Octets(init) == 0 && g.s.head == verb.Head? && g.s.connect == verb.Connect?;
    assert OnEvent(g, es[n]).Some? ==> Final(es[n]) || Interim(es[n]);
    assert LastLength(es, n, Length(verb.Head?, verb.Connect?, es[n].hs)) == Length(verb.Head?, verb.Connect?, es[n].hs);
  }

  /** A block before the final one: refused, interim or final. */
  lemma BlockOutcome(g: Stage, e: Event)
    requires e.Block? && (forall h | h in e.hs :: h.Consistent()) && AtStart(g.s, false) && g.s.received == 0
    requires !g.ended && (g.started ==> g.s.expectFinal)
    ensures
      var r, length := OnEvent(g, e), Length(g.s.head, g.s.connect, e.hs);
      && (r.Some? <==> Interim(e) || (Final(e) && (e.end ==> length == -1 || length == 0)))
      && (r.Some? ==>
            && r.value.started && r.value.ended == e.end && r.value.s.received == 0
            && (Final(e) ==> !r.value.s.expectFinal && r.value.s.length == length)
            && (Interim(e) ==>
                  && r.value.s.expectFinal && AtStart(r.value.s, false)
                  && r.value.s.head == g.s.head && r.value.s.connect == g.s.connect))
  {
    FieldsAcceptedIff(g.s, e.hs, false, false);
    ResponseBlockOutcome(g.s, e.hs);
  }

  lemma ResponseBlockOutcome(s: State, hs: seq<Header>)
    requires AtStart(s, false)
    ensures
      var r := OnResponseHeaders(Summary(s, hs, false));
      && (r.Some? <==> Find(hs, Status).Some?)
      && (r.Some? ==> r.value.received == s.received && (r.value.expectFinal <==> Code(hs) / 100 == 1))
      && (r.Some? && r.value.expectFinal ==> AtStart(r.value, false) && r.value.head == s.head && r.value.connect == s.connect)
      && (r.Some? && !r.value.expectFinal ==> r.value.length == Length(s.head, s.connect, hs))
  {
    assert Status in Summary(s, hs, false).seen <==> Find(hs, Status).Some?;
  }

  /** An empty DATA frame between an interim response and the final one is accepted. */
  lemma EmptyDataIsAccepted(end: bool)
    ensures
      var status := Header(true, Status, [49, 48, 48], true, true, false);
      AfterEvents(Opening(AnyVerb), [Block([status], false), Data(0, end)]).Some? <==> !end
    ensures
      var status := Header(true, Status, [49, 48, 48], true, true, false);
      forall n: nat | n > 0 :: AfterEvents(Opening(AnyVerb), [Block([status], false), Data(n, end)]).None?
  {
    var status := Header(true, Status, [49, 48, 48], true, true, false);
    forall n: nat ensures AfterEvents(Opening(AnyVerb), [Block([status], false), Data(n, end)]).Some? <==> n == 0 && !end {
      InterimThenData(status, n, end);
    }
  }

  lemma InterimThenData(status: Header, n: nat, end: bool)
    requires status == Header(true, Status, [49, 48, 48], true, true, false)
    ensures AfterEvents(Opening(AnyVerb), [Block([status], false), Data(n, end)]).Some? <==> n == 0 && !end
  {
    var es := [Block([status], false), Data(n, end)];
    var one := [es[0]];
    assert es[..1] == one && one[..0] == [];
    HundredIsInterim(status);
    assert FinalAt([]) == 0 && FinalAt(one) == 1 && FinalAt(es) == 2;
    ResponseAcceptedIff(es, AnyVerb);
    assert Response(es, AnyVerb) <==> Early(es[0]) && Early(es[1]);
  }

  lemma HundredIsInterim(status: Header)
    requires status == Header(true, Status, [49, 48, 48], true, true, false)
    ensures Interim(Block([status], false)) && !Final(Block([status], false))
  {
    var v: seq<Byte> := [49, 48, 48];
    assert v[..2] == [49, 48] && v[..2][..1] == [49] && v[..2][..1][..0] == [];
    assert Decimal([]) == 0 && Decimal([49]) == 1 && Decimal([49, 48]) == 10 && Decimal(v) == 100;
  }

  // ------------------------------------------------------------------ promised requests

  /** The method of a request. */
  function VerbIn(hs: seq<Header>): Verb
  {
    if Find(hs, Method).Some? then VerbOf(Find(hs, Method).value) else AnyVerb
  }

  /** Of a promised request only the method is remembered: its response begins as any response does. */
  lemma PromiseOpens(hs: seq<Header>)
    requires RequestComplete(hs)
    ensures OnRequestHeaders(Summary(Fresh, hs, true), true) == Some(Opening(VerbIn(hs)).s)
  {
    CompleteIff(hs, true);
    if Find(hs, Method).Some? { VerbsDiffer(Find(hs, Method).value); }
  }

  /** A promised request is accepted iff it is right and complete, and is no CONNECT. */
  lemma PromiseAcceptedIff(hs: seq<Header>)
    requires forall h | h in hs :: h.Consistent()
    ensures
      var r := AfterFields(Fresh, hs, true, false, false);
      && (r.Some? && OnRequestHeaders(r.value, true).Some? <==> FieldsOk(hs, true, false) && RequestComplete(hs))
      && (r.Some? && OnRequestHeaders(r.value, true).Some? ==>
            OnRequestHeaders(r.value, true) == Some(Opening(VerbIn(hs)).s) && !VerbIn(hs).Connect?)
  {
    FieldsAcceptedIff(Fresh, hs, true, false);
    CompleteIff(hs, true);
    if FieldsOk(hs, true, false) && RequestComplete(hs) {
      PromiseOpens(hs);
      NoConnect(hs);
    }
  }

  lemma NoConnect(hs: seq<Header>)
    requires FieldsOk(hs, true, false)
    ensures !VerbIn(hs).Connect?
  {
    if Find(hs, Method).Some? {
      FindSome(hs, Method);
      var i :| 0 <= i < |hs| && hs[i].Kept() && hs[i].token == Method && hs[i].value == Find(hs, Method).value;
      assert FieldOk(hs[i], true, false);
    }
  }

  /** After every promised request that is accepted, exactly the runs that are responses to it are accepted. */
  lemma PromisedResponseIff(hs: seq<Header>, es: seq<Event>)
    requires forall h | h in hs :: h.Consistent()
    requires forall e | e in es :: e.Block? ==> forall h | h in e.hs :: h.Consistent()
    requires
      var r := AfterFields(Fresh, hs, true, false, false);
      r.Some? && OnRequestHeaders(r.value, true).Some?
    ensures
      var promised := OnRequestHeaders(AfterFields(Fresh, hs, true, false, false).value, true).value;
      var r := AfterEvents(Stage(promised, false, false), es);
      (r.Some? <==> Response(es, VerbIn(hs))) && (r.Some? ==> Tells(es, r.value, VerbIn(hs)))
  {
    PromiseAcceptedIff(hs);
    ResponseAcceptedIff(es, VerbIn(hs));
  }

  /** A response that has ended is complete: what its content length says is what came. */
  lemma EndedResponseIsComplete(es: seq<Event>, verb: Verb)
    requires forall e | e in es :: e.Block? ==> forall h | h in e.hs :: h.Consistent()
    requires AfterEvents(Opening(verb), es).Some? && AfterEvents(Opening(verb), es).value.ended
    ensures FinalAt(es) < |es| && es[|es| - 1].end
    ensures
      var k := FinalAt(es);
      var length := LastLength(es, k, Length(verb.Head?, verb.Connect?, es[k].hs));
      length != -1 ==> Octets(es) == length
  {
    ResponseAcceptedIff(es, verb);
  }

  // ------------------------------------------------------------------- runs of requests

  /** Header blocks after the first are trailers; they must end the stream. */
  function OnRequestEvent(g: Stage, e: Event, odd: bool): Option<Stage>
  {
    if g.ended then None
    else
      match e
      case Data(n, end) => if !g.started then None else Ending(if n == 0 then Some(g.s) else OnData(g.s, n), end)
      case Block(hs, end) =>
        var t := AfterFields(g.s, hs, true, odd, g.started);
        Ending(if t.None? then None else if !g.started then OnRequestHeaders(t.value, false) else if end then t else None, end)
  }

  function AfterRequestEvents(es: seq<Event>, odd: bool): Option<Stage>
  {
    if es == [] then Some(Stage(Fresh, false, false))
    else
      match AfterRequestEvents(es[..|es| - 1], odd)
      case None => None
      case Some(t) => OnRequestEvent(t, es[|es| - 1], odd)
  }

  /** The content length a request stands for; CONNECT has none. */
  function RequestLength(hs: seq<Header>): int
  {
    if Is(Find(hs, Method), IsConnect) || Find(hs, ContentLength).None? then -1 else Parsed(Find(hs, ContentLength).value)
  }

  /** A request: a complete header block, then its body. */
  predicate Request(es: seq<Event>, odd: bool)
  {
    es != [] ==>
      && es[0].Block? && FieldsOk(es[0].hs, true, odd) && RequestComplete(es[0].hs)
      && BodyOk(es, 0, RequestLength(es[0].hs), true, odd)
  }

  ghost predicate RequestTells(es: seq<Event>, g: Stage, odd: bool)
    requires Request(es, odd)
  {
    if es == [] then g == Stage(Fresh, false, false) else InBody(es, 0, RequestLength(es[0].hs), true, odd, g)
  }

  /**
   * A run is accepted iff it is a request, of which all octets of the content length have
   * come once it has ended.
   */
  lemma {:induction false} RequestRunAcceptedIff(es: seq<Event>, odd: bool)
    requires forall e | e in es :: e.Block? ==> forall h | h in e.hs :: h.Consistent()
    ensures
      var r := AfterRequestEvents(es, odd);
      (r.Some? <==> Request(es, odd)) && (r.Some? ==> RequestTells(es, r.value, odd))
    decreases |es|
  {
    if es != [] {
      var n := |es| - 1;
      assert forall e | e in es[..n] :: e in es;
      RequestRunAcceptedIff(es[..n], odd);
      assert es[n] in es;
      if n == 0 {
        RequestBegins(es, odd);
      } else {
        if Request(es, odd) { BodyPrefix(es, n, 0, RequestLength(es[0].hs), true, odd); }
        if Request(es[..n], odd) { RequestGoesOn(es, n, AfterRequestEvents(es[..n], odd).value, odd); }
      }
    }
  }

  lemma RequestGoesOn(es: seq<Event>, n: nat, g: Stage, odd: bool)
    requires 0 < n && n + 1 == |es| && Request(es[..n], odd) && RequestTells(es[..n], g, odd)
    requires es[n].Block? ==> forall h | h in es[n].hs :: h.Consistent()
    ensures
      var r := OnRequestEvent(g, es[n], odd);
      (r.Some? <==> Request(es, odd)) && (r.Some? ==> RequestTells(es, r.value, odd))
  {
    assert es[..n][0] == es[0];
    BodyStep(es, n, 0, RequestLength(es[0].hs), true, odd, g);
    assert OnRequestEvent(g, es[n], odd) == OnBodyEvent(g, es[n], true, odd);
  }

  lemma RequestBegins(es: seq<Event>, odd: bool)
    requires |es| == 1 && (es[0].Block? ==> forall h | h in es[0].hs :: h.Consistent())
    ensures
      var r := OnRequestEvent(Stage(Fresh, false, false), es[0], odd);
      (r.Some? <==> Request(es, odd)) && (r.Some? ==> RequestTells(es, r.value, odd))
  {
    assert es[..0] == [] && Octets(es) == Octets(es[..0]) + if es[0].Data? then es[0].n else 0;
    if es[0].Block? {
      FieldsAcceptedIff(Fresh, es[0].hs, true, odd);
      RequestOutcome(es[0].hs);
    }
  }

  lemma RequestOutcome(hs: seq<Header>)
    ensures
      var r := OnRequestHeaders(Summary(Fresh, hs, true), false);
      && (r.Some? <==> RequestComplete(hs))
      && (r.Some? ==>
            && r.value.received == 0 && !r.value.expectFinal && r.value.length == RequestLength(hs)
            && (Host in r.value.seen <==> Find(hs, Host).Some?))
  {
    CompleteIff(hs, false);
    assert Host in Summary(Fresh, hs, true).seen <==> Find(hs, Host).Some?;
  }

  /** A request that has ended is complete: what its content length says is what came. */
  lemma EndedRequestIsComplete(es: seq<Event>, odd: bool)
    requires forall e | e in es :: e.Block? ==> forall h | h in e.hs :: h.Consistent()
    requires AfterRequestEvents(es, odd).Some? && AfterRequestEvents(es, odd).value.ended
    ensures es != [] && es[0].Block? && es[|es| - 1].end
    ensures
      var length := LastLength(es, 0, RequestLength(es[0].hs));
      length != -1 ==> Octets(es) == length
  {
    RequestRunAcceptedIff(es, odd);
  }
}
