/** The in-place JSON setter: a byte scanner over the top-level object, and the ordered-map
    update it performs on the text of any member list. A text is a sequence of bytes, each
    written as a character. */
module JsonSet {
  import opened Wrappers

  // ---- the scanner, by position ----

  predicate IsWs(c: char) { c == ' ' || c == '\t' || c == '\n' || c == '\r' }

  /** The first position from i on that holds no whitespace. */
  function WsEnd(b: string, i: nat): (e: nat)
    requires i <= |b|
    ensures i <= e <= |b|
    decreases |b| - i
  {
    if i < |b| && IsWs(b[i]) then WsEnd(b, i + 1) else i
  }

  /** The closing quote of a key, or the end of the text. */
  function KeyEnd(b: string, i: nat, esc: bool): (e: nat)
    requires i <= |b|
    ensures i <= e <= |b|
    decreases |b| - i
  {
    if i == |b| || (!esc && b[i] == '"') then i else KeyEnd(b, i + 1, !esc && b[i] == '\\')
  }

  /** The scanner's state inside a value. */
  datatype Scan = Scan(depth: nat, inStr: bool, esc: bool)

  /** A top-level comma or an unmatched closing bracket ends the value. */
  predicate Ends(q: Scan, c: char) {
    !q.esc && !q.inStr && q.depth == 0 && (c == ',' || c == '}' || c == ']')
  }

  function Step(q: Scan, c: char): Scan
    requires !Ends(q, c)
  {
    if q.esc then q.(esc := false)
    else if q.inStr then (if c == '\\' then q.(esc := true) else if c == '"' then q.(inStr := false) else q)
    else if c == '"' then q.(inStr := true)
    else if c == '{' || c == '[' then q.(depth := q.depth + 1)
    else if c == '}' || c == ']' then q.(depth := q.depth - 1)
    else q
  }

  /** The end of a value, or of the text. */
  function ValEnd(b: string, i: nat, q: Scan): (e: nat)
    requires i <= |b|
    ensures i <= e <= |b|
    decreases |b| - i
  {
    if i == |b| || Ends(q, b[i]) then i else ValEnd(b, i + 1, Step(q, b[i]))
  }

  const Outside: Scan := Scan(0, false, false)

  /** Past whitespace, at most one colon, and whitespace. */
  function ColonEnd(b: string, i: nat): (e: nat)
    requires i <= |b|
    ensures i <= e <= |b|
  {
    var w := WsEnd(b, i);
    WsEnd(b, if w < |b| && b[w] == ':' then w + 1 else w)
  }

  function Pair(key: string, v: string): string { "\"" + key + "\":" + v }

  function Fresh(key: string, v: string): string { "{" + Pair(key, v) + "}" }

  /** What the scanner sees next: a malformed or unterminated member, the closing brace, or
      a member with the extents of its raw key and its value. */
  datatype Parse = Malformed | Closing(at: nat) | Found(ks: nat, ke: nat, vs: nat, ve: nat)

  function ParseMember(b: string, i: nat): (p: Parse)
    requires i <= |b|
    ensures p.Closing? ==> i <= p.at < |b|
    ensures p.Found? ==> i < p.ks <= p.ke < p.vs <= p.ve < |b|
  {
    var w := WsEnd(b, i);
    if w == |b| then Malformed
    else if b[w] == '}' then Closing(w)
    else if b[w] != '"' then Malformed
    else
      var ke := KeyEnd(b, w + 1, false);
      if ke == |b| then Malformed
      else
        var vs := ColonEnd(b, ke + 1);
        var ve := ValEnd(b, vs, Outside);
        if ve == |b| then Malformed else Found(w + 1, ke, vs, ve)
  }

  /** Past the comma after a value, if there is one. */
  function After(b: string, ve: nat): nat
    requires ve < |b|
  {
    if b[ve] == ',' then ve + 1 else ve
  }

  /** What the setter does to the text: start afresh, insert a member before the closing
      brace, or replace a value. */
  datatype Edit = Restart | Insert(at: nat, comma: bool) | Replace(vs: nat, ve: nat)

  /** The member loop from position i on, after `count` members. */
  function Plan(b: string, i: nat, count: nat, key: string): (e: Edit)
    requires i <= |b|
    ensures e.Insert? ==> i <= e.at < |b|
    ensures e.Replace? ==> i < e.vs <= e.ve < |b|
    decreases |b| - i
  {
    match ParseMember(b, i)
    case Malformed => Restart
    case Closing(at) => Insert(at, count > 0)
    case Found(ks, ke, vs, ve) =>
      if b[ks..ke] == key then Replace(vs, ve) else Plan(b, After(b, ve), count + 1, key)
  }

  predicate InText(b: string, brace: nat, e: Edit) {
    (e.Insert? ==> brace < e.at < |b|) && (e.Replace? ==> brace < e.vs <= e.ve < |b|)
  }

  /** The edited text, from the opening brace on. */
  function Apply(b: string, brace: nat, e: Edit, key: string, v: string): string
    requires InText(b, brace, e)
  {
    match e
    case Restart => Fresh(key, v)
    case Insert(at, comma) => b[brace..at] + (if comma then "," else "") + Pair(key, v) + b[at..]
    case Replace(vs, ve) => b[brace..vs] + v + b[ve..]
  }

  /** The first opening brace, or the end of the text. */
  function BraceAt(b: string, i: nat): (e: nat)
    requires i <= |b|
    ensures i <= e <= |b| && (e < |b| ==> b[e] == '{')
    decreases |b| - i
  {
    if i == |b| || b[i] == '{' then i else BraceAt(b, i + 1)
  }

  function Set(json: string, key: string, v: string): string {
    var n := BraceAt(json, 0);
    if n == |json| then Fresh(key, v) else Apply(json, n, Plan(json, n + 1, 0, key), key, v)
  }

  // ---- the loops ----

  method SkipWs(b: string, from: nat) returns (i: nat)
    requires from <= |b|
    ensures i == WsEnd(b, from)
  {
    i := from;
    while i < |b| && IsWs(b[i])
      invariant from <= i <= |b| && WsEnd(b, from) == WsEnd(b, i)
    {
      i := i + 1;
    }
  }

  method ScanKey(b: string, from: nat) returns (i: nat)
    requires from <= |b|
    ensures i == KeyEnd(b, from, false)
  {
    i := from;
    var esc := false;
    while i < |b|
      invariant from <= i <= |b| && KeyEnd(b, from, false) == KeyEnd(b, i, esc)
    {
      if esc {
        esc := false;
      } else if b[i] == '\\' {
        esc := true;
      } else if b[i] == '"' {
        break;
      }
      i := i + 1;
    }
  }

  method ScanValue(b: string, from: nat) returns (i: nat)
    requires from <= |b|
    ensures i == ValEnd(b, from, Outside)
  {
    i := from;
    var depth: nat, inStr, vesc := 0, false, false;
    while i < |b|
      invariant from <= i <= |b| && ValEnd(b, from, Outside) == ValEnd(b, i, Scan(depth, inStr, vesc))
      invariant depth <= i - from  // so a text below 2^31 bytes keeps the counter within 32 bits
    {
      var c := b[i];
      if vesc {
        vesc := false;
      } else if inStr {
        if c == '\\' {
          vesc := true;
        } else if c == '"' {
          inStr := false;
        }
      } else if c == '"' {
        inStr := true;
      } else if c == '{' || c == '[' {
        depth := depth + 1;
      } else if c == '}' || c == ']' {
        if depth == 0 { break; }
        depth := depth - 1;
      } else if c == ',' && depth == 0 {
        break;
      }
      i := i + 1;
    }
  }

  method SkipColon(b: string, from: nat) returns (i: nat)
    requires from <= |b|
    ensures i == ColonEnd(b, from)
  {
    i := SkipWs(b, from);
    if i < |b| && b[i] == ':' { i := i + 1; }
    i := SkipWs(b, i);
  }

  /** One pass of the member loop's scanning. */
  method NextMember(b: string, from: nat) returns (p: Parse)
    requires from <= |b|
    ensures p == ParseMember(b, from)
  {
    var i := SkipWs(b, from);
    if i >= |b| { return Malformed; }
    if b[i] == '}' { return Closing(i); }
    if b[i] != '"' { return Malformed; }
    var keyStart := i + 1;
    var keyEnd := ScanKey(b, keyStart);
    if keyEnd >= |b| { return Malformed; }
    var valueStart := SkipColon(b, keyEnd + 1);
    if valueStart >= |b| { return Malformed; }
    var valueEnd := ScanValue(b, valueStart);
    if valueEnd >= |b| { return Malformed; }
    return Found(keyStart, keyEnd, valueStart, valueEnd);
  }

  method FindBrace(b: string) returns (i: nat)
    ensures i == BraceAt(b, 0)
  {
    i := 0;
    while i < |b| && b[i] != '{'
      invariant i <= |b| && BraceAt(b, 0) == BraceAt(b, i)
    {
      i := i + 1;
    }
  }

  /** The setter on arbitrary bytes. */
  method JsonSetImpl(json: string, key: string, v: string) returns (r: string)
    ensures r == Set(json, key, v)
  {
    var brace := FindBrace(json);
    if brace == |json| { return Fresh(key, v); }
    var i, count := brace + 1, 0;
    ghost var goal := Plan(json, i, count, key);
    while true
      invariant brace < i <= |json| && goal == Plan(json, i, count, key)
      decreases |json| - i
    {
      var p := NextMember(json, i);
      match p
      case Malformed =>
        return Fresh(key, v);
      case Closing(at) =>
        return json[brace..at] + (if count > 0 then "," else "") + Pair(key, v) + json[at..];
      case Found(ks, ke, vs, ve) =>
        if ke - ks == |key| && json[ks..ke] == key { return json[brace..vs] + v + json[ve..]; }
        i, count := After(json, ve), count + 1;
    }
  }

  // ---- documents ----

  /** A member with the whitespace around its key; whitespace after the value belongs to
      the value's text. */
  datatype Member = Member(ws0: string, key: string, ws1: string, ws2: string, val: string)

  /** An object's members, the blank inside it when it has none, and the text after it. */
  datatype Doc = Doc(members: seq<Member>, blank: string, tail: string)

  function Head(m: Member): string { m.ws0 + "\"" + m.key + "\"" + m.ws1 + ":" + m.ws2 }

  function RenderList(ms: seq<Member>): string {
    if ms == [] then ""
    else if |ms| == 1 then Head(ms[0]) + ms[0].val
    else Head(ms[0]) + ms[0].val + "," + RenderList(ms[1..])
  }

  function Render(d: Doc): string { "{" + RenderList(d.members) + d.blank + "}" + d.tail }

  predicate AllWs(s: string) { forall i :: 0 <= i < |s| ==> IsWs(s[i]) }

  /** From position j on, no unescaped quote and no dangling escape. */
  predicate KeyOk(k: string, j: nat, esc: bool)
    requires j <= |k|
    decreases |k| - j
  {
    if j == |k| then !esc else (esc || k[j] != '"') && KeyOk(k, j + 1, !esc && k[j] == '\\')
  }

  /** From position j on, the scanner reads through and ends outside strings and brackets. */
  predicate Balanced(s: string, j: nat, q: Scan)
    requires j <= |s|
    decreases |s| - j
  {
    if j == |s| then q == Outside else !Ends(q, s[j]) && Balanced(s, j + 1, Step(q, s[j]))
  }

  predicate ValueOk(v: string) { Balanced(v, 0, Outside) && (v != "" ==> !IsWs(v[0])) }

  predicate MemberOk(m: Member) {
    AllWs(m.ws0) && AllWs(m.ws1) && AllWs(m.ws2) && KeyOk(m.key, 0, false) && ValueOk(m.val)
  }

  predicate MembersOk(ms: seq<Member>) { forall i :: 0 <= i < |ms| ==> MemberOk(ms[i]) }

  predicate DocOk(d: Doc) { MembersOk(d.members) && AllWs(d.blank) && (d.members != [] ==> d.blank == "") }

  /** The value of the first member with this key. */
  function Get(ms: seq<Member>, key: string): Option<string> {
    if ms == [] then None else if ms[0].key == key then Some(ms[0].val) else Get(ms[1..], key)
  }

  /** Ordered-map update: the first match in place, else at the end. */
  function Update(ms: seq<Member>, key: string, v: string, blank: string): seq<Member> {
    if ms == [] then [Member(blank, key, "", "", v)]
    else if ms[0].key == key then [ms[0].(val := v)] + ms[1..]
    else [ms[0]] + Update(ms[1..], key, v, blank)
  }

  function UpdateDoc(d: Doc, key: string, v: string): Doc {
    Doc(Update(d.members, key, v, d.blank), "", d.tail)
  }

  // ---- the scanner reads rendered text ----

  /** The text holds x at position i. */
  predicate Has(b: string, i: nat, x: string) {
    i + |x| <= |b| && forall t :: 0 <= t < |x| ==> b[i + t] == x[t]
  }

  lemma {:induction false} HasSplit(b: string, i: nat, x: string, y: string)
    requires Has(b, i, x + y)
    ensures Has(b, i, x) && Has(b, i + |x|, y)
  {
    forall t | 0 <= t < |x| ensures b[i + t] == x[t] { assert (x + y)[t] == x[t]; }
    forall t | 0 <= t < |y| ensures b[i + |x| + t] == y[t] { assert (x + y)[|x| + t] == y[t]; }
  }

  lemma {:induction false} HasSuffix(b: string, i: nat, x: string, y: string)
    requires i <= |b| && b[i..] == x + y
    ensures Has(b, i, x) && i + |x| <= |b| && b[i + |x|..] == y
  {}

  lemma {:induction false} WsRun(b: string, i: nat, ws: string, j: nat)
    requires j <= |ws| && Has(b, i, ws) && AllWs(ws) && (i + |ws| < |b| ==> !IsWs(b[i + |ws|]))
    ensures WsEnd(b, i + j) == i + |ws|
    decreases |ws| - j
  {
    if j < |ws| {
      assert b[i + j] == ws[j];
      WsRun(b, i, ws, j + 1);
    }
  }

  lemma {:induction false} KeyRun(b: string, i: nat, k: string, j: nat, esc: bool)
    requires j <= |k| && Has(b, i, k) && KeyOk(k, j, esc) && i + |k| < |b| && b[i + |k|] == '"'
    ensures KeyEnd(b, i + j, esc) == i + |k|
    decreases |k| - j
  {
    if j < |k| {
      assert b[i + j] == k[j];
      KeyRun(b, i, k, j + 1, !esc && k[j] == '\\');
    }
  }

  lemma {:induction false} ValRun(b: string, i: nat, s: string, j: nat, q: Scan)
    requires j <= |s| && Has(b, i, s) && Balanced(s, j, q) && i + |s| < |b| && (b[i + |s|] == ',' || b[i + |s|] == '}')
    ensures ValEnd(b, i + j, q) == i + |s|
    decreases |s| - j
  {
    if j < |s| {
      assert b[i + j] == s[j];
      ValRun(b, i, s, j + 1, Step(q, s[j]));
    }
  }

  lemma {:induction false} BraceRun(b: string, n: nat, j: nat)
    requires j <= n < |b| && b[n] == '{' && forall t :: 0 <= t < n ==> b[t] != '{'
    ensures BraceAt(b, j) == n
    decreases n - j
  {
    if j < n { BraceRun(b, n, j + 1); }
  }

  /** The places of a rendered member's pieces. */
  lemma {:induction false} Pieces(b: string, i: nat, m: Member)
    requires Has(b, i, Head(m) + m.val)
    ensures var w := i + |m.ws0|; var ke := w + 1 + |m.key|; var c := ke + 1 + |m.ws1|; var vs := c + 1 + |m.ws2|;
            && vs == i + |Head(m)| && vs <= |b| && Has(b, i, m.ws0)
            && b[w] == '"' && Has(b, w + 1, m.key) && b[ke] == '"'
            && Has(b, ke + 1, m.ws1) && b[c] == ':' && Has(b, c + 1, m.ws2) && Has(b, vs, m.val)
  {
    HasSplit(b, i, Head(m), m.val);
    HasSplit(b, i, m.ws0 + "\"" + m.key + "\"" + m.ws1 + ":", m.ws2);
    HasSplit(b, i, m.ws0 + "\"" + m.key + "\"" + m.ws1, ":");
    HasSplit(b, i, m.ws0 + "\"" + m.key + "\"", m.ws1);
    HasSplit(b, i, m.ws0 + "\"" + m.key, "\"");
    HasSplit(b, i, m.ws0 + "\"", m.key);
    HasSplit(b, i, m.ws0, "\"");
    var w := i + |m.ws0|;
    HasOne(b, w, '"');
    HasOne(b, w + 1 + |m.key|, '"');
    HasOne(b, w + 1 + |m.key| + 1 + |m.ws1|, ':');
  }

  lemma {:induction false} HasOne(b: string, i: nat, c: char)
    requires Has(b, i, [c])
    ensures i < |b| && b[i] == c
  {
    assert b[i + 0] == [c][0];
  }

  lemma {:induction false} ColonIs(b: string, i: nat, c: nat, e: nat)
    requires i <= c < |b| && WsEnd(b, i) == c && b[c] == ':' && WsEnd(b, c + 1) == e
    ensures ColonEnd(b, i) == e
  {
  }

  lemma {:induction false} ParseIs(b: string, i: nat, w: nat, ke: nat, vs: nat, ve: nat)
    requires i <= w < ke < vs <= ve < |b| && WsEnd(b, i) == w && b[w] == '"' && KeyEnd(b, w + 1, false) == ke
    requires ColonEnd(b, ke + 1) == vs && ValEnd(b, vs, Outside) == ve
    ensures ParseMember(b, i) == Found(w + 1, ke, vs, ve)
  {
  }

  /** A rendered member followed by a comma or a brace is found with its key and value. */
  lemma {:induction false} MemberParse(b: string, i: nat, m: Member)
    requires MemberOk(m) && Has(b, i, Head(m) + m.val)
    requires var e := i + |Head(m)| + |m.val|; e < |b| && (b[e] == ',' || b[e] == '}')
    ensures ParseMember(b, i)
         == Found(i + |m.ws0| + 1, i + |m.ws0| + 1 + |m.key|, i + |Head(m)|, i + |Head(m)| + |m.val|)
    ensures b[i + |m.ws0| + 1..i + |m.ws0| + 1 + |m.key|] == m.key
  {
    KeyPart(b, i, m);
    ValuePart(b, i, m);
    var w, vs := i + |m.ws0|, i + |Head(m)|;
    ParseIs(b, i, w, w + 1 + |m.key|, vs, vs + |m.val|);
  }

  lemma {:induction false} KeyPart(b: string, i: nat, m: Member)
    requires MemberOk(m) && Has(b, i, Head(m) + m.val)
    ensures var w := i + |m.ws0|; var ke := w + 1 + |m.key|;
            ke < |b| && WsEnd(b, i) == w && b[w] == '"' && KeyEnd(b, w + 1, false) == ke && b[w + 1..ke] == m.key
  {
    Pieces(b, i, m);
    KeyHalf(b, i, m.ws0, m.key);
    HasSlice(b, i + |m.ws0| + 1, m.key);
  }

  lemma {:induction false} ValuePart(b: string, i: nat, m: Member)
    requires MemberOk(m) && Has(b, i, Head(m) + m.val)
    requires var e := i + |Head(m)| + |m.val|; e < |b| && (b[e] == ',' || b[e] == '}')
    ensures var ke, vs := i + |m.ws0| + 1 + |m.key|, i + |Head(m)|;
            ke < vs < |b| && ColonEnd(b, ke + 1) == vs && ValEnd(b, vs, Outside) == vs + |m.val|
  {
    Pieces(b, i, m);
    ValueHalf(b, i + |m.ws0| + 1 + |m.key| + 1, m.ws1, m.ws2, m.val);
  }

  lemma {:induction false} KeyHalf(b: string, i: nat, ws: string, k: string)
    requires AllWs(ws) && KeyOk(k, 0, false) && Has(b, i, ws) && Has(b, i + |ws| + 1, k)
    requires var w := i + |ws|; var ke := w + 1 + |k|; ke < |b| && b[w] == '"' && b[ke] == '"'
    ensures WsEnd(b, i) == i + |ws| && KeyEnd(b, i + |ws| + 1, false) == i + |ws| + 1 + |k|
  {
    WsRun(b, i, ws, 0);
    KeyRun(b, i + |ws| + 1, k, 0, false);
  }

  lemma {:induction false} ValueHalf(b: string, i: nat, ws1: string, ws2: string, v: string)
    requires AllWs(ws1) && AllWs(ws2) && ValueOk(v)
    requires var c := i + |ws1|; var vs := c + 1 + |ws2|; var ve := vs + |v|;
             && Has(b, i, ws1) && Has(b, c + 1, ws2) && Has(b, vs, v) && ve < |b| && b[c] == ':'
             && (b[ve] == ',' || b[ve] == '}')
    ensures var vs := i + |ws1| + 1 + |ws2|; ColonEnd(b, i) == vs && ValEnd(b, vs, Outside) == vs + |v|
  {
    var c := i + |ws1|;
    var vs := c + 1 + |ws2|;
    NotWs(b, vs, v);
    WsRun(b, i, ws1, 0);
    WsRun(b, c + 1, ws2, 0);
    ColonIs(b, i, c, vs);
    ValRun(b, vs, v, 0, Outside);
  }

  lemma {:induction false} NotWs(b: string, i: nat, v: string)
    requires Has(b, i, v) && i + |v| < |b| && ValueOk(v) && (b[i + |v|] == ',' || b[i + |v|] == '}')
    ensures !IsWs(b[i])
  {}

  lemma {:induction false} HasSlice(b: string, i: nat, x: string)
    requires Has(b, i, x)
    ensures b[i..i + |x|] == x
  {
  }

  // ---- the loop finds the update's place ----

  /** Where a rendered list at position i is to be edited. */
  function Place(ms: seq<Member>, i: nat, key: string, count: nat): Edit {
    if ms == [] then Insert(i, count > 0)
    else
      var vs := i + |Head(ms[0])|;
      var ve := vs + |ms[0].val|;
      if ms[0].key == key then Replace(vs, ve)
      else Place(ms[1..], if |ms| > 1 then ve + 1 else ve, key, count + 1)
  }

  /** The rendered list with the object's end after it. */
  function Closed(ms: seq<Member>, tail: string): string { RenderList(ms) + ("}" + tail) }

  lemma {:induction false} ClosedCons(m: Member, ms: seq<Member>, tail: string)
    requires ms != []
    ensures Closed([m] + ms, tail) == Head(m) + m.val + ("," + Closed(ms, tail))
  {}

  /** What follows the first member of a closed list. */
  function Rest(more: seq<Member>, tail: string): string { if more == [] then "}" + tail else "," + Closed(more, tail) }

  lemma {:induction false} ClosedHead(m: Member, more: seq<Member>, tail: string)
    ensures Closed([m] + more, tail) == Head(m) + m.val + Rest(more, tail)
  {}

  lemma {:induction false} CloseParse(b: string, i: nat, blank: string, tail: string)
    requires i <= |b| && AllWs(blank) && b[i..] == blank + ("}" + tail)
    ensures ParseMember(b, i) == Closing(i + |blank|) && b[i + |blank|..] == "}" + tail && Has(b, i, blank)
  {
    HasSuffix(b, i, blank, "}" + tail);
    var e := i + |blank|;
    assert b[e] == b[e..][0];
    WsRun(b, i, blank, 0);
  }

  /** Where the list goes on after its first member. */
  function NextAt(i: nat, m: Member, more: seq<Member>): nat {
    i + |Head(m)| + |m.val| + (if more == [] then 0 else 1)
  }

  /** A closed list's first member is found, and the text goes on with the rest of the list. */
  lemma {:induction false} HeadParse(b: string, i: nat, m: Member, more: seq<Member>, tail: string)
    requires i <= |b| && MemberOk(m) && b[i..] == Closed([m] + more, tail)
    ensures var ks := i + |m.ws0| + 1; var vs := i + |Head(m)|; var ve := vs + |m.val|;
            && ks + |m.key| < vs && ve < |b| && ParseMember(b, i) == Found(ks, ks + |m.key|, vs, ve)
            && b[ks..ks + |m.key|] == m.key && After(b, ve) == NextAt(i, m, more)
    ensures NextAt(i, m, more) <= |b| && b[NextAt(i, m, more)..] == Closed(more, tail)
  {
    var rest := Rest(more, tail);
    ClosedHead(m, more, tail);
    HasSuffix(b, i, Head(m) + m.val, rest);
    var ve := i + |Head(m)| + |m.val|;
    assert b[ve] == b[ve..][0];
    MemberParse(b, i, m);
    GoOn(b, ve, more, tail);
  }

  lemma {:induction false} GoOn(b: string, ve: nat, more: seq<Member>, tail: string)
    requires ve < |b| && b[ve..] == Rest(more, tail)
    ensures After(b, ve) == ve + (if more == [] then 0 else 1) && b[After(b, ve)..] == Closed(more, tail)
  {}

  lemma {:induction false} PlaceCons(m: Member, more: seq<Member>, i: nat, key: string, count: nat)
    ensures Place([m] + more, i, key, count)
         == if m.key == key then Replace(i + |Head(m)|, i + |Head(m)| + |m.val|)
            else Place(more, NextAt(i, m, more), key, count + 1)
  {}

  lemma {:induction false} PlanCons(b: string, i: nat, m: Member, more: seq<Member>, tail: string, count: nat,
                                    key: string)
    requires i <= |b| && MemberOk(m) && b[i..] == Closed([m] + more, tail)
    ensures var e := NextAt(i, m, more);
            && e <= |b| && b[e..] == Closed(more, tail)
            && Plan(b, i, count, key)
               == if m.key == key then Replace(i + |Head(m)|, i + |Head(m)| + |m.val|) else Plan(b, e, count + 1, key)
  {
    HeadParse(b, i, m, more, tail);
    PlanAt(b, i, m, NextAt(i, m, more), count, key);
  }

  lemma {:induction false} PlanAt(b: string, i: nat, m: Member, e: nat, count: nat, key: string)
    requires var ks := i + |m.ws0| + 1; var vs := i + |Head(m)|; var ve := vs + |m.val|;
             && ks + |m.key| < vs && ve < |b| && ParseMember(b, i) == Found(ks, ks + |m.key|, vs, ve)
             && b[ks..ks + |m.key|] == m.key && After(b, ve) == e
    ensures Plan(b, i, count, key)
         == if m.key == key then Replace(i + |Head(m)|, i + |Head(m)| + |m.val|) else Plan(b, e, count + 1, key)
  {
    var ks := i + |m.ws0| + 1;
    PlanFound(b, i, ks, ks + |m.key|, i + |Head(m)|, i + |Head(m)| + |m.val|, count, key);
  }

  lemma {:induction false} PlanFound(b: string, i: nat, ks: nat, ke: nat, vs: nat, ve: nat, count: nat, key: string)
    requires i <= |b| && ParseMember(b, i) == Found(ks, ke, vs, ve)
    ensures ks <= ke <= |b| && ve < |b|
    ensures Plan(b, i, count, key)
         == if b[ks..ke] == key then Replace(vs, ve) else Plan(b, After(b, ve), count + 1, key)
  {}

  /** From the start of any member on, the scanner finds the place. */
  lemma {:induction false} PlanIsPlace(b: string, i: nat, ms: seq<Member>, tail: string, count: nat, key: string)
    requires i <= |b| && MembersOk(ms) && b[i..] == Closed(ms, tail)
    ensures Plan(b, i, count, key) == Place(ms, i, key, count)
    decreases |ms|
  {
    if ms == [] {
      CloseParse(b, i, "", tail);
    } else {
      var m, more := ms[0], ms[1..];
      assert ms == [m] + more;
      PlanCons(b, i, m, more, tail, count, key);
      PlaceCons(m, more, i, key, count);
      if m.key != key { PlanIsPlace(b, NextAt(i, m, more), more, tail, count + 1, key); }
    }
  }

  // ---- the edit renders the updated list ----

  lemma {:induction false} NewMember(key: string, v: string, blank: string)
    ensures var m := Member(blank, key, "", "", v); Head(m) + m.val == blank + Pair(key, v)
  {
  }

  lemma {:induction false} Grow(b: string, from: nat, i: nat, x: string)
    requires from <= i && Has(b, i, x)
    ensures b[from..i + |x|] == b[from..i] + x
  {
  }

  /** Text around a piece h, val of the suffix at i. */
  lemma {:induction false} Around(b: string, from: nat, i: nat, h: string, val: string, rest: string)
    requires from <= i <= |b| && b[i..] == h + val + rest && rest != ""
    ensures var ve := i + |h| + |val|;
            && ve < |b| && b[ve] == rest[0] && b[ve..] == rest
            && b[from..i + |h|] == b[from..i] + h && b[from..ve] == b[from..i] + (h + val)
  {}

  lemma {:induction false} UpdateCons(m: Member, more: seq<Member>, key: string, v: string)
    ensures Update([m] + more, key, v, "")
         == if m.key == key then [m.(val := v)] + more else [m] + Update(more, key, v, "")
  {}

  /** What the edit at its place makes of a closed list: the text of the updated list. */
  lemma {:induction false} EditRenders(b: string, brace: nat, i: nat, ms: seq<Member>, tail: string, count: nat,
                                       key: string, v: string)
    requires brace < i <= |b| && ms != [] && b[i..] == Closed(ms, tail)
    ensures InText(b, brace, Place(ms, i, key, count))
    ensures Apply(b, brace, Place(ms, i, key, count), key, v) == b[brace..i] + Closed(Update(ms, key, v, ""), tail)
    decreases |ms|
  {
    var m, more := ms[0], ms[1..];
    assert ms == [m] + more;
    PlaceCons(m, more, i, key, count);
    UpdateCons(m, more, key, v);
    if m.key == key {
      ReplaceEdit(b, brace, i, m, more, tail, key, v);
    } else if more == [] {
      AppendEdit(b, brace, i, m, tail, key, v);
    } else {
      SkipEdit(b, brace, i, m, more, tail);
      EditRenders(b, brace, NextAt(i, m, more), more, tail, count + 1, key, v);
      SkipRenders(b[brace..i], m, Update(more, key, v, ""), tail);
    }
  }

  lemma {:induction false} ReplaceEdit(b: string, brace: nat, i: nat, m: Member, more: seq<Member>, tail: string,
                                       key: string, v: string)
    requires brace < i <= |b| && b[i..] == Closed([m] + more, tail)
    ensures var e := Replace(i + |Head(m)|, i + |Head(m)| + |m.val|);
            InText(b, brace, e) && Apply(b, brace, e, key, v) == b[brace..i] + Closed([m.(val := v)] + more, tail)
  {
    ClosedHead(m, more, tail);
    Around(b, brace, i, Head(m), m.val, Rest(more, tail));
    ReplaceIs(b, brace, i + |Head(m)|, i + |Head(m)| + |m.val|, b[brace..i] + Head(m), Rest(more, tail), key, v);
    MatchRenders(b[brace..i], m, more, tail, v);
  }

  lemma {:induction false} ReplaceIs(b: string, brace: nat, vs: nat, ve: nat, front: string, rest: string, key: string,
                                     v: string)
    requires brace < vs <= ve < |b| && b[brace..vs] == front && b[ve..] == rest
    ensures Apply(b, brace, Replace(vs, ve), key, v) == front + v + rest
  {
  }

  lemma {:induction false} AppendEdit(b: string, brace: nat, i: nat, m: Member, tail: string, key: string, v: string)
    requires brace < i <= |b| && b[i..] == Closed([m] + [], tail)
    ensures var e := Insert(NextAt(i, m, []), true);
            && InText(b, brace, e)
            && Apply(b, brace, e, key, v) == b[brace..i] + Closed([m] + [Member("", key, "", "", v)], tail)
  {
    ClosedHead(m, [], tail);
    Around(b, brace, i, Head(m), m.val, "}" + tail);
    InsertIs(b, brace, NextAt(i, m, []), b[brace..i] + (Head(m) + m.val), "}" + tail, key, v);
    AppendRenders(b[brace..i], m, tail, key, v);
    assert [m] + [Member("", key, "", "", v)] == [m, Member("", key, "", "", v)];
  }

  lemma {:induction false} InsertIs(b: string, brace: nat, at: nat, front: string, rest: string, key: string, v: string)
    requires brace < at < |b| && b[brace..at] == front && b[at..] == rest
    ensures Apply(b, brace, Insert(at, true), key, v) == front + "," + Pair(key, v) + rest
  {
  }

  lemma {:induction false} SkipEdit(b: string, brace: nat, i: nat, m: Member, more: seq<Member>, tail: string)
    requires brace < i <= |b| && b[i..] == Closed([m] + more, tail) && more != []
    ensures var e := NextAt(i, m, more);
            e <= |b| && b[e..] == Closed(more, tail) && b[brace..e] == b[brace..i] + (Head(m) + m.val) + ","
  {
    ClosedCons(m, more, tail);
    PastText(b, brace, i, Head(m) + m.val, Closed(more, tail));
  }

  lemma {:induction false} SkipRenders(done: string, m: Member, more: seq<Member>, tail: string)
    requires more != []
    ensures done + (Head(m) + m.val) + "," + Closed(more, tail) == done + Closed([m] + more, tail)
  {}

  lemma {:induction false} PastText(b: string, from: nat, i: nat, p: string, r: string)
    requires from <= i <= |b| && b[i..] == p + ("," + r)
    ensures var e := i + |p| + 1; e <= |b| && b[e..] == r && b[from..e] == b[from..i] + p + ","
  {
    var q := p + ",";
    assert b[i..] == q + r;
    assert b[i + |q|..] == b[i..][|q|..];
    assert b[from..i + |q|] == b[from..i] + b[i..][..|q|];
  }

  lemma {:induction false} MatchRenders(done: string, m: Member, more: seq<Member>, tail: string, v: string)
    ensures done + Head(m) + v + Rest(more, tail) == done + Closed([m.(val := v)] + more, tail)
  {
    var m' := m.(val := v);
    ClosedHead(m', more, tail);
    assert Head(m') == Head(m);
    MatchCat(done, Head(m), v, Rest(more, tail));
  }

  lemma {:induction false} MatchCat(done: string, h: string, v: string, rest: string)
    ensures done + h + v + rest == done + (h + v + rest)
  {
  }

  lemma {:induction false} AppendRenders(done: string, m: Member, tail: string, key: string, v: string)
    ensures done + (Head(m) + m.val) + "," + Pair(key, v) + ("}" + tail)
         == done + Closed([m, Member("", key, "", "", v)], tail)
  {
    var nm := Member("", key, "", "", v);
    NewMember(key, v, "");
    assert "" + Pair(key, v) == Pair(key, v);
    assert [m, nm] == [m] + [nm];
    ClosedCons(m, [nm], tail);
    AppendCat(done, Head(m) + m.val, Pair(key, v), "}" + tail);
  }

  lemma {:induction false} AppendCat(done: string, hm: string, p: string, rest: string)
    ensures done + hm + "," + p + rest == done + (hm + ("," + (p + rest)))
  {
  }

  /** The setter refines the ordered-map update, for every key, value and document; text
      before the object is dropped and text after it kept. */
  lemma {:induction false} SetRefinesUpdate(pre: string, d: Doc, key: string, v: string)
    requires DocOk(d) && (forall i :: 0 <= i < |pre| ==> pre[i] != '{')
    ensures Set(pre + Render(d), key, v) == Render(UpdateDoc(d, key, v))
  {
    var b, n := pre + Render(d), |pre|;
    OpenText(pre, d);
    BraceRun(b, n, 0);
    if d.members == [] {
      EmptyRenders(b, n, d, key, v);
    } else {
      RenderClosed(d);
      RenderClosed(UpdateDoc(d, key, v));
      UpdateNonempty(d.members, key, v, d.blank);
      PlanIsPlace(b, n + 1, d.members, d.tail, 0, key);
      EditRenders(b, n, n + 1, d.members, d.tail, 0, key, v);
    }
  }

  lemma {:induction false} OpenText(pre: string, d: Doc)
    requires forall i :: 0 <= i < |pre| ==> pre[i] != '{'
    ensures var b, n := pre + Render(d), |pre|;
            && n < |b| && b[n] == '{' && b[n..n + 1] == "{" && b[n + 1..] == Render(d)[1..]
            && forall t :: 0 <= t < n ==> b[t] != '{'
  {}

  lemma {:induction false} EmptyRenders(b: string, n: nat, d: Doc, key: string, v: string)
    requires n < |b| && b[n..n + 1] == "{" && b[n + 1..] == Render(d)[1..] && AllWs(d.blank) && d.members == []
    ensures Apply(b, n, Plan(b, n + 1, 0, key), key, v) == Render(UpdateDoc(d, key, v))
  {
    var rest := "}" + d.tail;
    RenderClosed(d);
    CloseParse(b, n + 1, d.blank, d.tail);
    Grow(b, n, n + 1, d.blank);
    EmptyUpdate(d, key, v);
    EmptyCat(d.blank, Pair(key, v), rest);
    var at := n + 1 + |d.blank|;
    assert Plan(b, n + 1, 0, key) == Insert(at, false);
    assert b[n..at] == "{" + d.blank && b[at..] == rest;
  }

  lemma {:induction false} EmptyUpdate(d: Doc, key: string, v: string)
    requires d.members == []
    ensures Render(UpdateDoc(d, key, v)) == "{" + (d.blank + Pair(key, v) + ("}" + d.tail))
  {}

  lemma {:induction false} EmptyCat(blank: string, p: string, e: string)
    ensures "{" + blank + "" + p + e == "{" + (blank + p + e)
  {
  }

  lemma {:induction false} UpdateNonempty(ms: seq<Member>, key: string, v: string, blank: string)
    ensures Update(ms, key, v, blank) != []
  {
  }

  lemma {:induction false} RenderClosed(d: Doc)
    ensures d.members != [] && d.blank == "" ==> Render(d) == "{" + Closed(d.members, d.tail)
    ensures d.members == [] ==> Render(d) == "{" + (d.blank + ("}" + d.tail))
  {
  }

  // ---- the update as a map ----

  /** A document stays a document under a proper key and value. */
  lemma {:induction false} UpdateOk(ms: seq<Member>, key: string, v: string, blank: string)
    requires MembersOk(ms) && KeyOk(key, 0, false) && ValueOk(v) && AllWs(blank)
    ensures MembersOk(Update(ms, key, v, blank)) && Update(ms, key, v, blank) != []
    decreases |ms|
  {
    if ms != [] && ms[0].key != key { UpdateOk(ms[1..], key, v, blank); }
  }

  /** Setting a key sets it and leaves every other key alone. */
  lemma {:induction false} GetAfterSet(ms: seq<Member>, key: string, v: string, blank: string, other: string)
    ensures Get(Update(ms, key, v, blank), other) == if other == key then Some(v) else Get(ms, other)
    decreases |ms|
  {
    var ms' := Update(ms, key, v, blank);
    if ms == [] {
      assert ms'[1..] == [];
    } else if ms[0].key == key {
      assert ms'[1..] == ms[1..];
    } else {
      GetAfterSet(ms[1..], key, v, blank, other);
      assert ms'[1..] == Update(ms[1..], key, v, blank);
    }
  }

  /** Members keep their places: only the first match changes, and only in its value, or
      one member is added at the end. */
  lemma {:induction false} UpdatePlaces(ms: seq<Member>, key: string, v: string, blank: string, i: nat)
    requires i < |ms|
    ensures var ms' := Update(ms, key, v, blank);
            && |ms'| == (if Get(ms, key).None? then |ms| + 1 else |ms|)
            && ms'[i] == (if ms[i].key == key && Get(ms[..i], key).None? then ms[i].(val := v) else ms[i])
    decreases |ms|
  {
    if ms[0].key != key {
      assert Update(ms[1..], key, v, blank) == Update(ms, key, v, blank)[1..];
      if |ms| > 1 {
        UpdatePlaces(ms[1..], key, v, blank, if i > 0 then i - 1 else 0);
      } else {
        assert ms[1..] == [];
      }
      if i > 0 {
        assert ms[..i][1..] == ms[1..][..i - 1];
      }
    }
  }

  lemma {:induction false} UpdateUpdate(ms: seq<Member>, key: string, v: string, v2: string, a: string, b: string)
    ensures Update(Update(ms, key, v, a), key, v2, b) == Update(ms, key, v2, a)
    decreases |ms|
  {
    var ms' := Update(ms, key, v, a);
    if ms == [] {
      assert ms'[1..] == [];
    } else if ms[0].key == key {
      assert ms'[1..] == ms[1..];
    } else {
      UpdateUpdate(ms[1..], key, v, v2, a, b);
      assert ms'[1..] == Update(ms[1..], key, v, a);
    }
  }

  /** On texts: the second of two sets of one key wins and leaves no trace of the first. */
  lemma {:induction false} SetThenSet(pre: string, d: Doc, key: string, v: string, v2: string)
    requires DocOk(d) && (forall i :: 0 <= i < |pre| ==> pre[i] != '{') && KeyOk(key, 0, false) && ValueOk(v)
    ensures Set(Set(pre + Render(d), key, v), key, v2) == Set(pre + Render(d), key, v2)
  {
    var d1 := UpdateDoc(d, key, v);
    SetRefinesUpdate(pre, d, key, v);
    SetRefinesUpdate(pre, d, key, v2);
    UpdateOk(d.members, key, v, d.blank);
    SetRefinesUpdate("", d1, key, v2);
    assert "" + Render(d1) == Render(d1);
    UpdateUpdate(d.members, key, v, v2, d.blank, "");
  }

  /** Updates of two keys that are both present commute. */
  lemma {:induction false} UpdatesCommute(ms: seq<Member>, k1: string, v1: string, k2: string, v2: string, a: string)
    requires k1 != k2 && Get(ms, k1).Some? && Get(ms, k2).Some?
    ensures Update(Update(ms, k1, v1, a), k2, v2, a) == Update(Update(ms, k2, v2, a), k1, v1, a)
    decreases |ms|
  {
    var x, y := Update(ms, k1, v1, a), Update(ms, k2, v2, a);
    if ms[0].key == k1 {
      assert x[1..] == ms[1..] && y[1..] == Update(ms[1..], k2, v2, a);
    } else if ms[0].key == k2 {
      assert y[1..] == ms[1..] && x[1..] == Update(ms[1..], k1, v1, a);
    } else {
      UpdatesCommute(ms[1..], k1, v1, k2, v2, a);
      assert x[1..] == Update(ms[1..], k1, v1, a) && y[1..] == Update(ms[1..], k2, v2, a);
    }
  }

  /** On texts: sets of two keys that are both present commute. */
  lemma {:induction false} SetsCommute(pre: string, d: Doc, k1: string, v1: string, k2: string, v2: string)
    requires DocOk(d) && (forall i :: 0 <= i < |pre| ==> pre[i] != '{') && k1 != k2
    requires Get(d.members, k1).Some? && Get(d.members, k2).Some?
    requires KeyOk(k1, 0, false) && KeyOk(k2, 0, false) && ValueOk(v1) && ValueOk(v2)
    ensures Set(Set(pre + Render(d), k1, v1), k2, v2) == Set(Set(pre + Render(d), k2, v2), k1, v1)
  {
    SetTwice(pre, d, k1, v1, k2, v2);
    SetTwice(pre, d, k2, v2, k1, v1);
    UpdatesCommute(d.members, k1, v1, k2, v2, "");
  }

  lemma {:induction false} SetTwice(pre: string, d: Doc, k1: string, v1: string, k2: string, v2: string)
    requires DocOk(d) && (forall i :: 0 <= i < |pre| ==> pre[i] != '{') && KeyOk(k1, 0, false) && ValueOk(v1)
    ensures Set(Set(pre + Render(d), k1, v1), k2, v2) == Render(UpdateDoc(UpdateDoc(d, k1, v1), k2, v2))
  {
    var d1 := UpdateDoc(d, k1, v1);
    SetRefinesUpdate(pre, d, k1, v1);
    UpdateOk(d.members, k1, v1, d.blank);
    SetRefinesUpdate("", d1, k2, v2);
    assert "" + Render(d1) == Render(d1);
  }

  // ---- which closing brace ----

  /** An absent key goes in front of the brace that closes the list. */
  lemma {:induction false} AbsentPlace(b: string, i: nat, ms: seq<Member>, tail: string, count: nat, key: string)
    requires i <= |b| && MembersOk(ms) && b[i..] == Closed(ms, tail) && Get(ms, key).None?
    ensures var e := Place(ms, i, key, count); e.Insert? && e.at + 1 + |tail| == |b| && b[e.at..] == "}" + tail
    decreases |ms|
  {
    if ms != [] {
      var m, more := ms[0], ms[1..];
      assert ms == [m] + more;
      HeadParse(b, i, m, more, tail);
      PlaceCons(m, more, i, key, count);
      AbsentPlace(b, NextAt(i, m, more), more, tail, count + 1, key);
    }
  }

  /** A new member is inserted before the final closing brace of the text, as documented, if
      and only if the text after the object holds none. */
  lemma {:induction false} InsertsBeforeFinalIff(pre: string, d: Doc, key: string)
    requires DocOk(d) && (forall i :: 0 <= i < |pre| ==> pre[i] != '{') && Get(d.members, key).None?
    ensures var b := pre + Render(d); var e := Plan(b, |pre| + 1, 0, key);
            e.Insert? && b[e.at] == '}' && ((forall t :: e.at < t < |b| ==> b[t] != '}') <==> '}' !in d.tail)
  {
    var b, n := pre + Render(d), |pre| + 1;
    AbsentInsert(pre, d, key);
    FinalBrace(b, Plan(b, n, 0, key).at, d.tail);
  }

  lemma {:induction false} FinalBrace(b: string, at: nat, tail: string)
    requires at < |b| && b[at..] == "}" + tail
    ensures b[at] == '}' && ((forall t :: at < t < |b| ==> b[t] != '}') <==> '}' !in tail)
  {
    assert b[at] == b[at..][0];
    forall t | at < t < |b| ensures b[t] == tail[t - at - 1] { assert b[t] == b[at..][t - at]; }
    forall j | 0 <= j < |tail| ensures tail[j] == b[at + 1 + j] { assert b[at + 1 + j] == b[at..][1 + j]; }
  }

  /** With a brace behind the object the new member does not go before the last one. */
  lemma {:induction false} TrailingBrace(text: string, key: string, v: string)
    requires text == "{} }"
    ensures Set(text, key, v) == "{" + Pair(key, v) + "} }"
  {}

  // ---- texts that are no object ----

  /** A text without an opening brace is treated as the empty object. */
  lemma {:induction false} NoBraceIsFresh(json: string, key: string, v: string)
    requires '{' !in json
    ensures Set(json, key, v) == "{\"" + key + "\":" + v + "}"
  {
    NoBrace(json, 0);
    OneMember(key, v);
  }

  lemma {:induction false} NoBrace(b: string, i: nat)
    requires i <= |b| && '{' !in b
    ensures BraceAt(b, i) == |b|
    decreases |b| - i
  {
    if i < |b| { NoBrace(b, i + 1); }
  }

  lemma {:induction false} OneMember(key: string, v: string)
    ensures Fresh(key, v) == "{\"" + key + "\":" + v + "}"
  {
    assert "{" + ("\"" + key + "\":" + v) + "}" == "{\"" + key + "\":" + v + "}";
  }

  function Earlier(a: nat, b: nat): nat { if a < b then a else b }

  lemma {:induction false} WsCut(b: string, x: nat, i: nat)
    requires i <= x <= |b|
    ensures WsEnd(b[..x], i) == Earlier(WsEnd(b, i), x)
    decreases |b| - i
  {
    if i < x { if IsWs(b[i]) { WsCut(b, x, i + 1); } }
  }

  lemma {:induction false} KeyCut(b: string, x: nat, i: nat, esc: bool)
    requires i <= x <= |b|
    ensures KeyEnd(b[..x], i, esc) == Earlier(KeyEnd(b, i, esc), x)
    decreases |b| - i
  {
    if i < x && (esc || b[i] != '"') { KeyCut(b, x, i + 1, !esc && b[i] == '\\'); }
  }

  lemma {:induction false} ValCut(b: string, x: nat, i: nat, q: Scan)
    requires i <= x <= |b|
    ensures ValEnd(b[..x], i, q) == Earlier(ValEnd(b, i, q), x)
    decreases |b| - i
  {
    if i < x && !Ends(q, b[i]) { ValCut(b, x, i + 1, Step(q, b[i])); }
  }

  lemma {:induction false} ColonCut(b: string, x: nat, i: nat)
    requires i <= x <= |b|
    ensures ColonEnd(b[..x], i) == Earlier(ColonEnd(b, i), x)
  {
    WsCut(b, x, i);
    var w := WsEnd(b, i);
    if w < x { WsCut(b, x, if b[w] == ':' then w + 1 else w); }
  }

  /** In a text cut off at x, a member that ends before x reads as before; anything that
      reaches x is malformed. */
  function Cut(p: Parse, x: nat): Parse {
    match p
    case Closing(at) => if at < x then p else Malformed
    case Found(_, _, _, ve) => if ve < x then p else Malformed
    case Malformed => p
  }

  lemma {:induction false} ParseCut(b: string, x: nat, i: nat)
    requires i <= x <= |b|
    ensures ParseMember(b[..x], i) == Cut(ParseMember(b, i), x)
  {
    WsCut(b, x, i);
    var w := WsEnd(b, i);
    if w < x {
      if b[w] == '"' {
        MemberCut(b, x, w);
        QuoteCut(b, x, i, w);
      }
    }
  }

  /** The same from the quote that opens a member's key. */
  lemma {:induction false} QuoteCut(b: string, x: nat, i: nat, w: nat)
    requires i <= w < x <= |b| && WsEnd(b, i) == WsEnd(b[..x], i) == w && b[w] == '"'
    requires var ke := KeyEnd(b, w + 1, false);
             && KeyEnd(b[..x], w + 1, false) == Earlier(ke, x)
             && (ke < x ==> var vs := ColonEnd(b, ke + 1);
                            && ColonEnd(b[..x], ke + 1) == Earlier(vs, x)
                            && ValEnd(b[..x], Earlier(vs, x), Outside) == Earlier(ValEnd(b, vs, Outside), x))
    ensures ParseMember(b[..x], i) == Cut(ParseMember(b, i), x)
  {}

  /** From an opening quote on. */
  lemma {:induction false} MemberCut(b: string, x: nat, w: nat)
    requires w < x <= |b|
    ensures var ke := KeyEnd(b, w + 1, false);
            && KeyEnd(b[..x], w + 1, false) == Earlier(ke, x)
            && (ke < x ==> var vs := ColonEnd(b, ke + 1);
                           && ColonEnd(b[..x], ke + 1) == Earlier(vs, x)
                           && ValEnd(b[..x], Earlier(vs, x), Outside) == Earlier(ValEnd(b, vs, Outside), x))
  {
    KeyCut(b, x, w + 1, false);
    var ke := KeyEnd(b, w + 1, false);
    if ke < x {
      ColonCut(b, x, ke + 1);
      var vs := ColonEnd(b, ke + 1);
      if vs <= x { ValCut(b, x, vs, Outside); }
    }
  }

  /** Where the whole text would take a new member at `at`, a text cut off at or before it is
      no object. */
  lemma {:induction false} PlanCut(b: string, x: nat, i: nat, count: nat, key: string)
    requires i <= x <= |b| && Plan(b, i, count, key).Insert? && x <= Plan(b, i, count, key).at
    ensures Plan(b[..x], i, count, key) == Restart
    decreases |b| - i
  {
    ParseCut(b, x, i);
    var p := ParseMember(b, i);
    if p.Found? && p.ve < x {
      assert b[..x][p.ks..p.ke] == b[p.ks..p.ke];
      PlanCut(b, x, After(b, p.ve), count + 1, key);
    }
  }

  lemma {:induction false} BraceCut(b: string, x: nat, i: nat)
    requires i <= x <= |b|
    ensures BraceAt(b[..x], i) == Earlier(BraceAt(b, i), x)
    decreases |b| - i
  {
    if i < x && b[i] != '{' { BraceCut(b, x, i + 1); }
  }

  /** A document cut off anywhere before the brace that closes it, without the key, gives the
      one-member object. */
  lemma {:induction false} CutOffIsFresh(pre: string, d: Doc, x: nat, key: string, v: string)
    requires DocOk(d) && (forall i :: 0 <= i < |pre| ==> pre[i] != '{') && Get(d.members, key).None?
    requires x + 1 + |d.tail| <= |pre + Render(d)|
    ensures Set((pre + Render(d))[..x], key, v) == "{\"" + key + "\":" + v + "}"
  {
    var b, n := pre + Render(d), |pre|;
    OpenText(pre, d);
    BraceRun(b, n, 0);
    AbsentInsert(pre, d, key);
    OneMember(key, v);
    CutText(b, n, x, key, v);
  }

  lemma {:induction false} CutText(b: string, n: nat, x: nat, key: string, v: string)
    requires n < |b| && BraceAt(b, 0) == n && Plan(b, n + 1, 0, key).Insert? && x <= Plan(b, n + 1, 0, key).at
    ensures Set(b[..x], key, v) == Fresh(key, v)
  {
    var c := b[..x];
    BraceCut(b, x, 0);
    if n < x {
      PlanCut(b, x, n + 1, 0, key);
      assert Set(c, key, v) == Apply(c, n, Restart, key, v);
    } else {
      assert BraceAt(c, 0) == |c|;
    }
  }

  /** An absent key is planned at the brace that closes the object. */
  lemma {:induction false} AbsentInsert(pre: string, d: Doc, key: string)
    requires DocOk(d) && (forall i :: 0 <= i < |pre| ==> pre[i] != '{') && Get(d.members, key).None?
    ensures var b := pre + Render(d);
            && |pre| < |b|
            && var e := Plan(b, |pre| + 1, 0, key);
               e.Insert? && e.at + 1 + |d.tail| == |b| && b[e.at..] == "}" + d.tail
  {
    var b, n := pre + Render(d), |pre| + 1;
    OpenText(pre, d);
    RenderClosed(d);
    if d.members == [] {
      AbsentEmpty(b, n, d.blank, d.tail, key);
    } else {
      PlanIsPlace(b, n, d.members, d.tail, 0, key);
      AbsentPlace(b, n, d.members, d.tail, 0, key);
    }
  }

  lemma {:induction false} AbsentEmpty(b: string, n: nat, blank: string, tail: string, key: string)
    requires n <= |b| && AllWs(blank) && b[n..] == blank + ("}" + tail)
    ensures var e := Plan(b, n, 0, key); e.Insert? && e.at + 1 + |tail| == |b| && b[e.at..] == "}" + tail
  {
    CloseParse(b, n, blank, tail);
    assert Plan(b, n, 0, key) == Insert(n + |blank|, false);
    assert |b[n..]| == |b| - n;
  }

  /** A text whose first member does not begin with a quote is no object. */
  lemma {:induction false} MalformedIsFresh(pre: string, ws: string, rest: string, key: string, v: string)
    requires (forall i :: 0 <= i < |pre| ==> pre[i] != '{') && AllWs(ws)
    requires rest != "" && !IsWs(rest[0]) && rest[0] != '"' && rest[0] != '}'
    ensures Set(pre + "{" + ws + rest, key, v) == "{\"" + key + "\":" + v + "}"
  {
    var b, n := pre + "{" + ws + rest, |pre|;
    assert forall t :: 0 <= t < |ws| ==> b[n + 1 + t] == ws[t];
    assert b[n + 1 + |ws|] == rest[0] && b[n] == '{';
    BraceRun(b, n, 0);
    WsRun(b, n + 1, ws, 0);
    OneMember(key, v);
  }
}
