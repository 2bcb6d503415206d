/**
 The body of a /sql request: a JSON object of which three members matter. The parser keeps the
 raw text of every value and looks into it only for `sql` and `sessionId`.
 */
module RequestBody {
  import opened Bytes
  import opened JsonSyntax
  import opened JsonScan
  import opened ParamDecoder
  import opened JsonMeaning

  datatype Request = Request(sql: bytes, sessionId: bytes, params: bytes)

  const BLANK := Request([], [], [])

  const SQL_KEY: bytes := [115, 113, 108]
  const SESSION_KEY: bytes := [115, 101, 115, 115, 105, 111, 110, 73, 100]
  const PARAMS_KEY: bytes := [112, 97, 114, 97, 109, 115]

  lemma RequestKeys()
    ensures SQL_KEY == Ascii("sql") && SESSION_KEY == Ascii("sessionId") && PARAMS_KEY == Ascii("params")
  {
  }

  /** What a member does to the request; None when a string was expected. Other keys are ignored. */
  function Dispatch(r: Request, key: bytes, raw: bytes): Option<Request> {
    if key == SQL_KEY then
      match StringAt(raw, 0)
      case Err => None
      case Ok(s, _) => Some(r.(sql := s))
    else if key == SESSION_KEY then
      match StringAt(raw, 0)
      case Err => None
      case Ok(s, _) => Some(r.(sessionId := s))
    else if key == PARAMS_KEY then Some(r.(params := raw))
    else Some(r)
  }

  function RequestMembersAt(json: bytes, pos: nat, first: bool, r: Request): Option<Request>
    decreases |json| - pos
  {
    var p := SkipSpace(json, pos);
    if ClosesAt(json, p, RBRACE) then Some(r)
    else
      match KeyAt(json, p, first)
      case Err => None
      case Ok(key, after) =>
        match RawValueAt(json, after)
        case Err => None
        case Ok(raw, next) =>
          match Dispatch(r, key, raw)
          case None => None
          case Some(r') => RequestMembersAt(json, next, false, r')
  }

  /** ParseRequest; None is a refusal. What follows the object is not looked at. */
  function ParseRequestAt(body: bytes): Option<Request> {
    match ConsumeAt(body, 0, LBRACE)
    case Err => None
    case Ok(_, start) =>
      match RequestMembersAt(body, start, true, BLANK)
      case None => None
      case Some(r) => if r.sql == [] then None else Some(r)
  }

  method ParseRequest(body: bytes) returns (result: Option<Request>)
    ensures result == ParseRequestAt(body)
  {
    var pos := SkipWhitespace(body, 0);
    if pos >= |body| || body[pos] != LBRACE {
      return None;
    }
    pos := pos + 1;
    var r := BLANK;
    var first := true;
    ghost var all := RequestMembersAt(body, pos, true, BLANK);
    while true
      invariant all == RequestMembersAt(body, pos, first, r)
      decreases |body| - pos
    {
      var p := SkipWhitespace(body, pos);
      if p < |body| && body[p] == RBRACE {
        break;
      }
      var key := ParseKey(body, p, first);
      if key.Err? {
        return None;
      }
      first := false;
      var raw := ParseRawValue(body, key.next);
      if raw.Err? {
        return None;
      }
      if key.value == SQL_KEY {
        var s := ParseString(raw.value, 0);
        if s.Err? {
          return None;
        }
        r := r.(sql := s.value);
      } else if key.value == SESSION_KEY {
        var s := ParseString(raw.value, 0);
        if s.Err? {
          return None;
        }
        r := r.(sessionId := s.value);
      } else if key.value == PARAMS_KEY {
        r := r.(params := raw.value);
      }
      pos := raw.next;
    }
    return if r.sql == [] then None else Some(r);
  }

  // ---- on trees ----

  /** The same fold over the members of a tree. */
  function RequestRead(ms: seq<Member>, r: Request): Option<Request>
    requires MembersOk(ms)
  {
    if ms == [] then Some(r)
    else
      match ReadMember(r, UnitsValue(ms[0].key), ms[0].slot.value)
      case None => None
      case Some(r') => RequestRead(ms[1..], r')
  }

  function ReadMember(r: Request, key: bytes, j: Json): Option<Request>
    requires WellFormedJson(j)
  {
    if key == SQL_KEY then
      if j.Str? then Some(r.(sql := UnitsValue(j.units))) else None
    else if key == SESSION_KEY then
      if j.Str? then Some(r.(sessionId := UnitsValue(j.units))) else None
    else if key == PARAMS_KEY then Some(r.(params := JsonSyntax.Text(j)))
    else Some(r)
  }

  lemma DispatchReads(r: Request, key: bytes, j: Json)
    requires WellFormedJson(j)
    ensures Dispatch(r, key, JsonSyntax.Text(j)) == ReadMember(r, key, j)
  {
    WholeText(JsonSyntax.Text(j));
    FirstByte(j);
    TypeStringReads(JsonSyntax.Text(j), 0, 0, j);
  }

  lemma RequestStep(json: bytes, cur: nat, first: bool, key: bytes, after: nat, raw: bytes, next: nat, r: Request, r': Option<Request>)
    requires !ClosesAt(json, SkipSpace(json, cur), RBRACE) && KeyAt(json, SkipSpace(json, cur), first) == Ok(key, after)
    requires RawValueAt(json, after) == Ok(raw, next) && Dispatch(r, key, raw) == r'
    ensures RequestMembersAt(json, cur, first, r) == if r'.None? then None else RequestMembersAt(json, next, false, r'.value)
  {
  }

  lemma {:induction false} RequestMembersAgree(json: bytes, cur: nat, pos: nat, ms: seq<Member>, pad: bytes, first: bool, r: Request)
    requires MembersTailAt(json, pos, ms, pad, first) && SkipSpace(json, cur) == SkipSpace(json, pos)
    ensures RequestMembersAt(json, cur, first, r) == RequestRead(ms, r)
    decreases ms
  {
    if ms == [] {
      MembersEmpty(json, cur, pos, pad, first);
    } else {
      var after, at, end, rest := MembersStep(json, cur, pos, ms, pad, first);
      var key, j := UnitsValue(ms[0].key), ms[0].slot.value;
      RawValueReads(json, after, at, j);
      DispatchReads(r, key, j);
      var r' := ReadMember(r, key, j);
      RequestStep(json, cur, first, key, after, JsonSyntax.Text(j), end, r, r');
      if r'.Some? { RequestMembersAgree(json, end, rest, ms[1..], pad, false, r'.value); }
    }
  }

  // ---- which members count ----

  /** The `sql` and `sessionId` members are strings. */
  predicate TextMembers(ms: seq<Member>)
    requires MembersOk(ms)
  {
    ms == []
    || ((UnitsValue(ms[0].key) == SQL_KEY || UnitsValue(ms[0].key) == SESSION_KEY ==> ms[0].slot.value.Str?)
        && TextMembers(ms[1..]))
  }

  /** The string the last member called `name` stands for. */
  function LastString(ms: seq<Member>, name: bytes, default: bytes): bytes
    requires MembersOk(ms)
  {
    if ms == [] then default
    else
      var rest := ms[1..];
      LastString(rest, name, if UnitsValue(ms[0].key) == name && ms[0].slot.value.Str? then StringOf(ms[0].slot.value) else default)
  }

  function StringOf(j: Json): bytes
    requires WellFormedJson(j) && j.Str?
  {
    UnitsValue(j.units)
  }

  /** The verbatim text of the last member called `name`. */
  function LastText(ms: seq<Member>, name: bytes, default: bytes): bytes
    requires MembersOk(ms)
  {
    if ms == [] then default
    else LastText(ms[1..], name, if UnitsValue(ms[0].key) == name then JsonSyntax.Text(ms[0].slot.value) else default)
  }

  lemma KeysDiffer()
    ensures SQL_KEY != SESSION_KEY && SQL_KEY != PARAMS_KEY && SESSION_KEY != PARAMS_KEY
  {
    assert |SQL_KEY| == 3 && |SESSION_KEY| == 9 && |PARAMS_KEY| == 6;
  }

  lemma {:induction false} ReadIsLast(ms: seq<Member>, r: Request)
    requires MembersOk(ms)
    ensures RequestRead(ms, r)
         == if TextMembers(ms)
            then Some(Request(LastString(ms, SQL_KEY, r.sql), LastString(ms, SESSION_KEY, r.sessionId),
                              LastText(ms, PARAMS_KEY, r.params)))
            else None
  {
    KeysDiffer();
    if ms != [] {
      assert WellFormedJson(ms[0].slot.value);
      var r' := ReadMember(r, UnitsValue(ms[0].key), ms[0].slot.value);
      if r'.Some? { ReadIsLast(ms[1..], r'.value); }
    }
  }

  /**
   Request round trip: whatever the order of the members, the unknown ones among them, the
   insignificant whitespace and what follows the object, the request is accepted exactly when
   its `sql` and `sessionId` members are strings and the last `sql` is not empty; and then the
   result is the last `sql`, the last `sessionId` and the verbatim text of the last `params`.
   */
  lemma RequestRoundTrip(body: bytes, ws: bytes, ms: seq<Member>, pad: bytes)
    requires Blank(ws) && WellFormedJson(Obj(ms, pad)) && At(body, 0, ws) && At(body, |ws|, JsonSyntax.Text(Obj(ms, pad)))
    ensures var sql := LastString(ms, SQL_KEY, []);
            ParseRequestAt(body)
            == if TextMembers(ms) && sql != []
               then Some(Request(sql, LastString(ms, SESSION_KEY, []), LastText(ms, PARAMS_KEY, []))) else None
  {
    var end := ObjectTail(body, |ws|, ms, pad);
    SkipBlank(body, 0, ws);
    RequestMembersAgree(body, |ws| + 1, |ws| + 1, ms, pad, true, BLANK);
    ReadIsLast(ms, BLANK);
  }
}
