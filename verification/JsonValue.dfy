/** JSON values in their own grammar (sections 2 to 7 of RFC 8259), and that the setter's scanner
    reads every one of them as one value. */
module JsonValue {
  import opened JsonSet

  // ---- the grammar ----

  /** Strings by their raw content, bare tokens (numbers and literals), and bracketed lists. */
  datatype Json = Text(raw: string) | Bare(token: string) | Array(body: Parts) | Object(body: Parts)

  /** The parts of a list: what stands before a value (whitespace, or a key with its colon),
      the value, the whitespace behind it, and the parts after a comma. */
  datatype Parts =
    | Empty(ws: string)
    | Part(lead: Lead, val: Json, ws: string, more: Parts)
    | Last(lead: Lead, val: Json, ws: string)

  datatype Lead = Blank(ws: string) | Key(ws0: string, raw: string, ws1: string, ws2: string)

  function Write(v: Json): string {
    match v
    case Text(raw) => "\"" + raw + "\""
    case Bare(token) => token
    case Array(body) => "[" + WriteParts(body) + "]"
    case Object(body) => "{" + WriteParts(body) + "}"
  }

  function WriteParts(p: Parts): string {
    match p
    case Empty(ws) => ws
    case Part(lead, val, ws, more) => WriteLead(lead) + Write(val) + ws + "," + WriteParts(more)
    case Last(lead, val, ws) => WriteLead(lead) + Write(val) + ws
  }

  function WriteLead(l: Lead): string {
    match l
    case Blank(ws) => ws
    case Key(ws0, raw, ws1, ws2) => ws0 + "\"" + raw + "\"" + ws1 + ":" + ws2
  }

  /** Every quote inside is escaped, and every backslash escapes something. */
  predicate RawOk(raw: string) {
    raw == "" || (raw[0] != '"' && raw[0] != '\\' && RawOk(raw[1..]))
    || (raw[0] == '\\' && |raw| > 1 && RawOk(raw[2..]))
  }

  predicate Blanks(s: string) { forall c :: c in s ==> c == ' ' || c == '\t' || c == '\n' || c == '\r' }

  /** A token holds no quote, bracket, brace or comma. */
  predicate TokenOk(s: string) { forall c :: c in s ==> Plain(c) }

  predicate Plain(c: char) { c != '"' && c != '{' && c != '}' && c != '[' && c != ']' && c != ',' }

  predicate JsonOk(v: Json) {
    match v
    case Text(raw) => RawOk(raw)
    case Bare(token) => token != "" && TokenOk(token) && !Blanks(token[..1])
    case Array(body) => PartsOk(body)
    case Object(body) => PartsOk(body)
  }

  predicate PartsOk(p: Parts) {
    match p
    case Empty(ws) => Blanks(ws)
    case Part(lead, val, ws, more) => LeadOk(lead) && JsonOk(val) && Blanks(ws) && PartsOk(more)
    case Last(lead, val, ws) => LeadOk(lead) && JsonOk(val) && Blanks(ws)
  }

  predicate LeadOk(l: Lead) {
    match l
    case Blank(ws) => Blanks(ws)
    case Key(ws0, raw, ws1, ws2) => Blanks(ws0) && RawOk(raw) && Blanks(ws1) && Blanks(ws2)
  }

  // ---- the scanner on such texts ----

  /** The scanner reads through `s` and is then in state `r`. */
  predicate Reads(s: string, q: Scan, r: Scan) {
    if s == "" then q == r else !Ends(q, s[0]) && Reads(s[1..], Step(q, s[0]), r)
  }

  lemma {:induction false} ReadsAppend(a: string, b: string, q: Scan, t: Scan, r: Scan)
    requires Reads(a, q, t) && Reads(b, t, r)
    ensures Reads(a + b, q, r)
  {
    if a == "" {
      assert a + b == b;
    } else {
      ReadsAppend(a[1..], b, Step(q, a[0]), t, r);
      assert (a + b)[1..] == a[1..] + b;
    }
  }

  lemma {:induction false} ReadsOne(c: char, q: Scan)
    requires !Ends(q, c)
    ensures Reads([c], q, Step(q, c))
  {
    assert [c][1..] == "";
  }

  /** Outside strings, `depth` brackets deep. */
  function At(depth: nat): Scan { Scan(depth, false, false) }

  lemma {:induction false} TokenReads(s: string, d: nat)
    requires TokenOk(s)
    ensures Reads(s, At(d), At(d))
  {
    if s != "" {
      assert s[0] in s;
      assert forall c :: c in s[1..] ==> c in s;
      TokenReads(s[1..], d);
    }
  }

  lemma {:induction false} BlanksRead(s: string, d: nat)
    requires Blanks(s)
    ensures Reads(s, At(d), At(d))
  {
    TokenReads(s, d);
  }

  lemma {:induction false} RawReads(raw: string, d: nat)
    requires RawOk(raw)
    ensures Reads(raw, Scan(d, true, false), Scan(d, true, false))
    decreases |raw|
  {
    if raw != "" {
      if raw[0] == '\\' {
        RawReads(raw[2..], d);
        assert raw[1..][1..] == raw[2..] && raw[1..][0] == raw[1];
      } else {
        RawReads(raw[1..], d);
      }
    }
  }

  lemma {:induction false} TextReads(raw: string, d: nat)
    requires RawOk(raw)
    ensures Reads("\"" + raw + "\"", At(d), At(d))
  {
    var q := Scan(d, true, false);
    ReadsOne('"', At(d));
    RawReads(raw, d);
    ReadsAppend("\"", raw, At(d), q, q);
    ReadsOne('"', q);
    ReadsAppend("\"" + raw, "\"", At(d), q, At(d));
  }

  lemma {:induction false} LeadReads(l: Lead, d: nat)
    requires LeadOk(l)
    ensures Reads(WriteLead(l), At(d), At(d))
  {
    match l
    case Blank(ws) => BlanksRead(ws, d);
    case Key(ws0, raw, ws1, ws2) =>
      var q := At(d);
      BlanksRead(ws0, d);
      TextReads(raw, d);
      BlanksRead(ws1, d);
      ReadsOne(':', q);
      BlanksRead(ws2, d);
      ReadsAppend(ws0, "\"" + raw + "\"", q, q, q);
      ReadsAppend(ws0 + ("\"" + raw + "\""), ws1, q, q, q);
      ReadsAppend(ws0 + ("\"" + raw + "\"") + ws1, ":", q, q, q);
      ReadsAppend(ws0 + ("\"" + raw + "\"") + ws1 + ":", ws2, q, q, q);
      assert ws0 + ("\"" + raw + "\"") == ws0 + "\"" + raw + "\"";
  }

  lemma {:induction false} JsonReads(v: Json, d: nat)
    requires JsonOk(v)
    ensures Reads(Write(v), At(d), At(d))
  {
    match v
    case Text(raw) => TextReads(raw, d);
    case Bare(token) => TokenReads(token, d);
    case Array(body) =>
      PartsRead(body, d + 1);
      ListReads('[', ']', WriteParts(body), d);
    case Object(body) =>
      PartsRead(body, d + 1);
      ListReads('{', '}', WriteParts(body), d);
  }

  /** A bracketed text that reads one level deeper. */
  lemma {:induction false} ListReads(open: char, close: char, s: string, d: nat)
    requires (open == '[' && close == ']') || (open == '{' && close == '}')
    requires Reads(s, At(d + 1), At(d + 1))
    ensures Reads([open] + s + [close], At(d), At(d))
  {
    ReadsOne(open, At(d));
    ReadsAppend([open], s, At(d), At(d + 1), At(d + 1));
    ReadsOne(close, At(d + 1));
    ReadsAppend([open] + s, [close], At(d), At(d + 1), At(d));
  }

  lemma {:induction false} ItemReads(lead: Lead, val: Json, ws: string, d: nat)
    requires LeadOk(lead) && Blanks(ws) && Reads(Write(val), At(d), At(d))
    ensures Reads(WriteLead(lead) + Write(val) + ws, At(d), At(d))
  {
    var q := At(d);
    LeadReads(lead, d);
    BlanksRead(ws, d);
    ReadsAppend(WriteLead(lead), Write(val), q, q, q);
    ReadsAppend(WriteLead(lead) + Write(val), ws, q, q, q);
  }

  lemma {:induction false} PartsRead(p: Parts, d: nat)
    requires PartsOk(p) && d > 0
    ensures Reads(WriteParts(p), At(d), At(d))
  {
    match p
    case Empty(ws) => BlanksRead(ws, d);
    case Last(lead, val, ws) =>
      JsonReads(val, d);
      ItemReads(lead, val, ws, d);
    case Part(lead, val, ws, more) =>
      var q := At(d);
      var item := WriteLead(lead) + Write(val) + ws;
      JsonReads(val, d);
      ItemReads(lead, val, ws, d);
      PartsRead(more, d);
      ReadsOne(',', q);
      ReadsAppend(item, ",", q, q, q);
      ReadsAppend(item + ",", WriteParts(more), q, q, q);
  }

  // ---- what the setter accepts ----

  lemma {:induction false} ReadsBalanced(s: string, j: nat, q: Scan)
    requires j <= |s| && Reads(s[j..], q, Outside)
    ensures Balanced(s, j, q)
    decreases |s| - j
  {
    if j < |s| {
      assert s[j..][1..] == s[j + 1..] && s[j..][0] == s[j];
      ReadsBalanced(s, j + 1, Step(q, s[j]));
    }
  }

  /** Every JSON value, with whitespace behind it, is a value to the setter. */
  lemma {:induction false} JsonIsValue(v: Json, ws: string)
    requires JsonOk(v) && Blanks(ws)
    ensures ValueOk(Write(v) + ws)
  {
    JsonReads(v, 0);
    BlanksRead(ws, 0);
    ReadsAppend(Write(v), ws, Outside, Outside, Outside);
    var s := Write(v) + ws;
    assert s[0..] == s;
    ReadsBalanced(s, 0, Outside);
    FirstIsNoBlank(v);
    assert s[0] == Write(v)[0];
  }

  lemma {:induction false} FirstIsNoBlank(v: Json)
    requires JsonOk(v)
    ensures Write(v) != "" && !IsWs(Write(v)[0])
  {
    if v.Bare? { assert v.token[..1] == [v.token[0]]; }
  }

  /** Every string's raw content is a key to the setter, and its whitespace is JSON's. */
  lemma {:induction false} RawIsKey(raw: string, j: nat)
    requires j <= |raw| && RawOk(raw[j..])
    ensures KeyOk(raw, j, false)
    decreases |raw| - j
  {
    if j < |raw| {
      assert raw[j..][0] == raw[j] && raw[j..][1..] == raw[j + 1..];
      if raw[j] == '\\' {
        assert raw[j..][2..] == raw[j + 2..];
        RawIsKey(raw, j + 2);
      } else {
        RawIsKey(raw, j + 1);
      }
    }
  }

  lemma {:induction false} BlanksAreWs(s: string)
    ensures AllWs(s) <==> Blanks(s)
  {
    if AllWs(s) {
      forall c | c in s ensures c == ' ' || c == '\t' || c == '\n' || c == '\r' {
        var i :| 0 <= i < |s| && s[i] == c;
      }
    }
    if Blanks(s) {
      forall i | 0 <= i < |s| ensures IsWs(s[i]) { assert s[i] in s; }
    }
  }

  /** Setting a key of any JSON object in a text to any JSON value is the ordered update of
      its members; whitespace behind a value is part of its member's text. */
  lemma {:induction false} SetOnJson(pre: string, d: Doc, vals: seq<Json>, ends: seq<string>, key: string, v: Json)
    requires (forall i :: 0 <= i < |pre| ==> pre[i] != '{') && RawOk(key) && JsonOk(v)
    requires |vals| == |ends| == |d.members|
    requires Blanks(d.blank) && (d.members != [] ==> d.blank == "")
    requires forall i :: 0 <= i < |vals| ==>
               var m := d.members[i];
               && Blanks(m.ws0) && RawOk(m.key) && Blanks(m.ws1) && Blanks(m.ws2)
               && JsonOk(vals[i]) && Blanks(ends[i]) && m.val == Write(vals[i]) + ends[i]
    ensures Set(pre + Render(d), key, Write(v)) == Render(UpdateDoc(d, key, Write(v)))
  {
    BlanksAreWs(d.blank);
    forall i | 0 <= i < |vals| ensures MemberOk(d.members[i]) { JsonMember(d.members[i], vals[i], ends[i]); }
    SetRefinesUpdate(pre, d, key, Write(v));
  }

  lemma {:induction false} JsonMember(m: Member, v: Json, end: string)
    requires Blanks(m.ws0) && RawOk(m.key) && Blanks(m.ws1) && Blanks(m.ws2)
    requires JsonOk(v) && Blanks(end) && m.val == Write(v) + end
    ensures MemberOk(m)
  {
    BlanksAreWs(m.ws0);
    BlanksAreWs(m.ws1);
    BlanksAreWs(m.ws2);
    assert m.key[0..] == m.key;
    RawIsKey(m.key, 0);
    JsonIsValue(v, end);
  }
}
