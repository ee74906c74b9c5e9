/** The ledger document: what is written, what is accepted, and that the two agree exactly. */
module LedgerText {
  import opened Machine
  import opened Relay
  import opened Ledger
  import opened Text

  const HEADER := "# udp2raw fallback state v1"
  const STATE_MAX_BYTES: nat := 16 * 1024
  type Port = x: nat | x <= 0xFFFF

  // ------------------------------------------------------------------ writing

  function DottedAll(ips: seq<Ip>): (r: seq<string>)
    ensures |r| == |ips| && forall i :: 0 <= i < |r| ==> r[i] == Dotted(ips[i])
  {
    if ips == [] then [] else [Dotted(ips[0])] + DottedAll(ips[1..])
  }

  function EntryFields(e: Entry): (r: seq<string>)
    requires e.key.dnsSet != []
    ensures |r| == 5
  {
    [Dotted(e.key.candidate), Dec(e.charged), Dec(e.notBefore), Dec(e.lastUsed), Join(DottedAll(e.key.dnsSet), ',')]
  }

  function FieldLine(name: string, value: string): string {
    name + "=" + value
  }

  predicate Keyed(es: seq<Entry>) {
    forall i :: 0 <= i < |es| ==> es[i].key.dnsSet != []
  }

  function EntryLine(e: Entry): string
    requires e.key.dnsSet != []
  {
    FieldLine("entry", Join(EntryFields(e), '|'))
  }

  function EntryLines(es: seq<Entry>): (r: seq<string>)
    requires Keyed(es)
    ensures |r| == |es| && forall i :: 0 <= i < |r| ==> r[i] == EntryLine(es[i])
  {
    if es == [] then [] else [EntryLine(es[0])] + EntryLines(es[1..])
  }

  function HeadLines(host: string, port: Port, s: State): (r: seq<string>)
    ensures |r| == 6
  {
    [HEADER, FieldLine("version", "1"), FieldLine("host", host), FieldLine("port", Dec(port)),
     FieldLine("global_tokens", Dec(s.tokens)), FieldLine("global_updated", Dec(s.updated))]
  }

  function Lines(host: string, port: Port, s: State): (r: seq<string>)
    requires Keyed(s.entries)
    ensures |r| == 6 + |s.entries|
  {
    HeadLines(host, port, s) + EntryLines(s.entries)
  }

  function Serialize(host: string, port: Port, s: State): string
    requires Keyed(s.entries)
  {
    Join(Lines(host, port, s), '\n') + "\n"
  }

  /** As written: the head, then one pushed line per entry. */
  method SerializeFallbackState(host: string, port: Port, s: State) returns (body: string)
    requires Keyed(s.entries)
    ensures body == Serialize(host, port, s)
  {
    hide Join, HeadLines, EntryLine;
    var head := HeadLines(host, port, s);
    body := Join(head, '\n') + "\n";
    assert head + EntryLines(s.entries)[..0] == head;
    for i := 0 to |s.entries|
      invariant body == Join(head + EntryLines(s.entries)[..i], '\n') + "\n"
    {
      var ls := head + EntryLines(s.entries)[..i];
      JoinAppend(ls, EntryLine(s.entries[i]), '\n');
      assert head + EntryLines(s.entries)[..i + 1] == ls + [EntryLine(s.entries[i])];
      body := body + EntryLine(s.entries[i]) + "\n";
    }
    assert EntryLines(s.entries)[..|s.entries|] == EntryLines(s.entries);
  }

  lemma {:induction false} JoinAppend(parts: seq<string>, p: string, sep: char)
    requires |parts| >= 1
    ensures Join(parts + [p], sep) == Join(parts, sep) + [sep] + p
  {
    if |parts| == 1 {
      assert (parts + [p])[1..] == [p];
    } else {
      JoinAppend(parts[1..], p, sep);
      assert (parts + [p])[1..] == parts[1..] + [p];
    }
  }

  // ------------------------------------------------------------------ reading

  predicate White(c: char) {
    c == ' ' || '\t' <= c <= '\r'
  }

  /** `strict_field`. */
  function Field(line: string, name: string): (r: Option<string>)
    ensures r.Some? ==> line == FieldLine(name, r.value)
  {
    var n := |name| + 1;
    if |line| < n || line[..n] != name + "=" then None
    else
      var v := line[n..];
      if v == [] || White(v[0]) || White(v[|v| - 1]) || '=' in v then None else Some(v)
  }

  function ParseSafeIp(s: string, safe: set<Ip>): Option<Ip> {
    var ip := ParseIp(s);
    if ip.Some? && ip.value in safe then ip else None
  }

  function ParseSet(parts: seq<string>, safe: set<Ip>): (r: Option<seq<Ip>>) {
    if parts == [] then Some([])
    else
      var ip, rest := ParseSafeIp(parts[0], safe), ParseSet(parts[1..], safe);
      if ip.Some? && rest.Some? then Some([ip.value] + rest.value) else None
  }

  /** One `entry=` line, with all of its own checks. */
  function ParseEntry(line: string, safe: set<Ip>, now: U64): Option<Entry> {
    var raw := Field(line, "entry");
    if raw.None? then None
    else
      var f := Split(raw.value, '|');
      if |f| != 5 then None
      else
        var candidate, charged := ParseSafeIp(f[0], safe), ParseDec(f[1], U32_MAX);
        var notBefore, lastUsed := ParseDec(f[2], U64_MAX), ParseDec(f[3], U64_MAX);
        var dnsSet := ParseSet(Split(f[4], ','), safe);
        if candidate.None? || charged.None? || notBefore.None? || lastUsed.None? || dnsSet.None? then None
        else
          var e := Entry(Key(candidate.value, dnsSet.value), charged.value, notBefore.value, lastUsed.value);
          if EntryAccepted(e, safe, now) then Some(e) else None
  }

  /** The entry lines in order, refusing a key that was already seen. */
  function ParseEntries(lines: seq<string>, seen: seq<Entry>, safe: set<Ip>, now: U64): Option<seq<Entry>> {
    if lines == [] then Some(seen)
    else
      var e := ParseEntry(lines[0], safe, now);
      if e.None? || Position(seen, e.value.key).Some? then None
      else ParseEntries(lines[1..], seen + [e.value], safe, now)
  }

  function StripNewline(text: string): string {
    if text != [] && text[|text| - 1] == '\n' then text[..|text| - 1] else text
  }

  function Load(text: string, host: string, port: Port, capacity: U32, safe: set<Ip>, now: U64): (r: Option<State>) {
    var body := StripNewline(text);
    var lines := Split(body, '\n');
    if |text| > STATE_MAX_BYTES || body == [] || '\r' in body then None
    else if |lines| < 6 || |lines| > 6 + MAX_BUDGET_ENTRIES then None
    else if lines[0] != HEADER || Field(lines[1], "version") != Some("1") then None
    else if Field(lines[2], "host") != Some(host) || Field(lines[3], "port") != Some(Dec(port)) then None
    else if Field(lines[4], "global_tokens").None? || Field(lines[5], "global_updated").None? then None
    else
      var tokens := ParseDec(Field(lines[4], "global_tokens").value, U32_MAX);
      var updated := ParseDec(Field(lines[5], "global_updated").value, U64_MAX);
      if tokens.None? || tokens.value > capacity || updated.None? || updated.value > SatAdd(now, CLOCK_SKEW_SECS) then None
      else
        var entries := ParseEntries(lines[6..], [], safe, now);
        if entries.None? then None else Some(State(tokens.value, updated.value, entries.value))
  }

  // ------------------------------------------------------------------ fields and entries, exactly

  lemma FieldOfToken(name: string, v: string)
    requires v != [] && !White(v[0]) && !White(v[|v| - 1]) && '=' !in v
    ensures Field(FieldLine(name, v), name) == Some(v)
  {
    var line := FieldLine(name, v);
    assert line[..|name| + 1] == name + "=" && line[|name| + 1..] == v;
  }

  lemma {:induction false} ParseSetExact(parts: seq<string>, safe: set<Ip>, ips: seq<Ip>)
    ensures ParseSet(parts, safe) == Some(ips) <==> parts == DottedAll(ips) && forall ip :: ip in ips ==> ip in safe
  {
    hide ParseIp, Dotted;
    if parts == [] || ips == [] {
      assert parts == DottedAll(ips) <==> parts == [] && ips == [];
    } else {
      ParseSetExact(parts[1..], safe, ips[1..]);
      ParseIpExact(parts[0], ips[0]);
      assert ips == [ips[0]] + ips[1..] && parts == [parts[0]] + parts[1..];
      assert DottedAll(ips) == [Dotted(ips[0])] + DottedAll(ips[1..]);
      var rest := ParseSet(parts[1..], safe);
      if rest.Some? && ParseSafeIp(parts[0], safe).Some? {
        var r := [ParseSafeIp(parts[0], safe).value] + rest.value;
        assert r == ips <==> r[0] == ips[0] && r[1..] == ips[1..];
        assert r[1..] == rest.value;
      }
      assert DottedAll(ips)[0] == Dotted(ips[0]) && DottedAll(ips)[1..] == DottedAll(ips[1..]);
    }
  }

  lemma SetIsClean(ips: seq<Ip>)
    requires ips != []
    ensures var t := Join(DottedAll(ips), ',');
            && t != [] && TokenChar(t[|t| - 1])
            && '|' !in t && '=' !in t && '\n' !in t && '\r' !in t
            && |t| + 1 <= |ips| * 16
  {
    hide Join, Dotted;
    var d := DottedAll(ips);
    forall i | 0 <= i < |d| ensures Token(d[i]) && |d[i]| <= 15 {
      DottedIsToken(ips[i]);
    }
    LastOfJoin(d, ',');
    JoinChars(d, ',', '|');
    JoinChars(d, ',', '=');
    JoinChars(d, ',', '\n');
    JoinChars(d, ',', '\r');
    JoinLength(d, ',', 15);
  }

  lemma {:induction false} LastOfJoin(parts: seq<string>, sep: char)
    requires |parts| >= 1 && forall i :: 0 <= i < |parts| ==> Token(parts[i])
    ensures var t := Join(parts, sep); t != [] && TokenChar(t[0]) && TokenChar(t[|t| - 1])
  {
    if |parts| > 1 {
      LastOfJoin(parts[1..], sep);
    }
  }

  /** Free of every character that structures the document outside a field. */
  ghost predicate Plain(v: string) {
    v != [] && '|' !in v && '=' !in v && '\n' !in v && '\r' !in v
  }

  lemma TokenIsPlain(v: string)
    requires Token(v)
    ensures Plain(v) && TokenChar(v[0]) && TokenChar(v[|v| - 1])
  {
  }

  lemma FieldsArePlain(e: Entry)
    requires e.key.dnsSet != []
    ensures var f := EntryFields(e);
            && (forall i :: 0 <= i < 5 ==> Plain(f[i]))
            && TokenChar(f[0][0]) && TokenChar(f[4][|f[4]| - 1])
            && |f[0]| <= 15 && |f[1]| <= 10 && |f[2]| <= 20 && |f[3]| <= 20 && |f[4]| + 1 <= |e.key.dnsSet| * 16
  {
    hide Dec, Join, Token;
    DottedIsToken(e.key.candidate);
    TokenIsPlain(Dotted(e.key.candidate));
    SetIsClean(e.key.dnsSet);
    NumeralLengths(e.charged);
    NumeralLengths(e.notBefore);
    NumeralLengths(e.lastUsed);
    DecIsToken(e.charged);
    TokenIsPlain(Dec(e.charged));
    DecIsToken(e.notBefore);
    TokenIsPlain(Dec(e.notBefore));
    DecIsToken(e.lastUsed);
    TokenIsPlain(Dec(e.lastUsed));
  }

  lemma EntryIsClean(e: Entry)
    requires e.key.dnsSet != []
    ensures var f, t := EntryFields(e), Join(EntryFields(e), '|');
            && Free(f, '|')
            && t != [] && TokenChar(t[0]) && TokenChar(t[|t| - 1])
            && '=' !in t && '\n' !in t && '\r' !in t
            && |t| <= 69 + |e.key.dnsSet| * 16
  {
    hide Dec, Join, EntryFields;
    var f := EntryFields(e);
    FieldsArePlain(e);
    JoinChars(f, '|', '=');
    JoinChars(f, '|', '\n');
    JoinChars(f, '|', '\r');
    JoinFive(f, '|');
    FiveEnds(f, '|');
  }

  lemma FiveEnds(f: seq<string>, sep: char)
    requires |f| == 5 && f[0] != [] && f[4] != []
    ensures var t := f[0] + [sep] + (f[1] + [sep] + (f[2] + [sep] + (f[3] + [sep] + f[4])));
            && t != [] && t[0] == f[0][0] && t[|t| - 1] == f[4][|f[4]| - 1]
            && |t| == |f[0]| + |f[1]| + |f[2]| + |f[3]| + |f[4]| + 4
  {
  }

  lemma JoinFive(f: seq<string>, sep: char)
    requires |f| == 5
    ensures Join(f, sep) == f[0] + [sep] + (f[1] + [sep] + (f[2] + [sep] + (f[3] + [sep] + f[4])))
  {
    JoinFour(f[1], f[2], f[3], f[4], sep);
    assert f[1..] == [f[1], f[2], f[3], f[4]];
  }

  /** An entry line yields an entry exactly when it is that entry's line and the entry is acceptable. */
  lemma EntryExact(line: string, safe: set<Ip>, now: U64, e: Entry)
    ensures ParseEntry(line, safe, now) == Some(e) <==>
            e.key.dnsSet != [] && line == EntryLine(e) && EntryAccepted(e, safe, now)
  {
    if ParseEntry(line, safe, now) == Some(e) {
      EntryParsed(line, safe, now, e);
    }
    if e.key.dnsSet != [] && line == EntryLine(e) && EntryAccepted(e, safe, now) {
      EntryWritten(safe, now, e);
    }
  }

  lemma EntryParsed(line: string, safe: set<Ip>, now: U64, e: Entry)
    requires ParseEntry(line, safe, now) == Some(e)
    ensures e.key.dnsSet != [] && line == EntryLine(e) && EntryAccepted(e, safe, now)
  {
    hide Split, Join, Dec, Value, ParseIp, Increasing;
    var raw := Field(line, "entry").value;
    JoinSplit(raw, '|');
    var f := Split(raw, '|');
    ParseIpExact(f[0], e.key.candidate);
    JoinSplit(f[4], ',');
    ParseSetExact(Split(f[4], ','), safe, e.key.dnsSet);
    assert f == EntryFields(e);
  }

  lemma EntryWritten(safe: set<Ip>, now: U64, e: Entry)
    requires e.key.dnsSet != [] && EntryAccepted(e, safe, now)
    ensures ParseEntry(EntryLine(e), safe, now) == Some(e)
  {
    hide Split, Join, Dec, Value, ParseIp, Increasing;
    var f := EntryFields(e);
    var raw := Join(f, '|');
    EntryIsClean(e);
    FieldOfToken("entry", raw);
    SplitJoin(f, '|');
    ParseIpExact(f[0], e.key.candidate);
    ParseOfDec(e.charged, U32_MAX);
    ParseOfDec(e.notBefore, U64_MAX);
    ParseOfDec(e.lastUsed, U64_MAX);
    var d := DottedAll(e.key.dnsSet);
    forall i | 0 <= i < |d| ensures ',' !in d[i] {
      DottedIsToken(e.key.dnsSet[i]);
    }
    SplitJoin(d, ',');
    ParseSetExact(d, safe, e.key.dnsSet);
  }

  // ------------------------------------------------------------------ the list of entries, exactly

  lemma {:induction false} UniqueAppend(es: seq<Entry>, e: Entry)
    ensures UniqueKeys(es + [e]) <==> UniqueKeys(es) && Find(es, e.key).None?
  {
    if es == [] {
      assert es + [e] == [e];
    } else {
      UniqueAppend(es[1..], e);
      FindAppend(es[1..], e, es[0].key);
      assert (es + [e])[1..] == es[1..] + [e];
    }
  }

  lemma {:induction false} FindAppend(es: seq<Entry>, e: Entry, k: Key)
    ensures Find(es + [e], k).None? <==> Find(es, k).None? && e.key != k
  {
    if es == [] {
      assert es + [e] == [e];
    } else {
      FindAppend(es[1..], e, k);
      assert (es + [e])[1..] == es[1..] + [e];
    }
  }

  lemma {:induction false} UniquePrefix(es: seq<Entry>, n: nat)
    requires UniqueKeys(es) && n <= |es|
    ensures UniqueKeys(es[..n])
    decreases |es| - n
  {
    if n == |es| {
      assert es[..n] == es;
    } else {
      UniquePrefix(es, n + 1);
      assert es[..n + 1] == es[..n] + [es[n]];
      UniqueAppend(es[..n], es[n]);
    }
  }

  ghost predicate WrittenAs(lines: seq<string>, seen: seq<Entry>, safe: set<Ip>, now: U64, es: seq<Entry>) {
    && |seen| + |lines| == |es|
    && es[..|seen|] == seen
    && UniqueKeys(es)
    && forall i :: 0 <= i < |lines| ==> LineOf(lines[i], es[|seen| + i], safe, now)
  }

  ghost predicate LineOf(line: string, e: Entry, safe: set<Ip>, now: U64) {
    e.key.dnsSet != [] && line == EntryLine(e) && EntryAccepted(e, safe, now)
  }

  lemma {:induction false} EntriesExact(lines: seq<string>, seen: seq<Entry>, safe: set<Ip>, now: U64, es: seq<Entry>)
    requires UniqueKeys(seen)
    ensures ParseEntries(lines, seen, safe, now) == Some(es) <==> WrittenAs(lines, seen, safe, now, es)
    decreases |lines|
  {
    hide EntryLine, EntryAccepted, ParseEntry;
    if lines == [] {
      assert |es| == |seen| ==> es[..|seen|] == es;
    } else {
      var e := ParseEntry(lines[0], safe, now);
      if e.Some? {
        EntryExact(lines[0], safe, now, e.value);
        PositionFinds(seen, e.value.key);
        UniqueAppend(seen, e.value);
        if Position(seen, e.value.key).None? {
          EntriesExact(lines[1..], seen + [e.value], safe, now, es);
        }
      }
      if |es| == |seen| + |lines| {
        var x := es[|seen|];
        EntryExact(lines[0], safe, now, x);
        Unfold(lines, seen, safe, now, es);
        if UniqueKeys(es) && es[..|seen|] == seen {
          UniquePrefix(es, |seen| + 1);
          assert es[..|seen| + 1] == seen + [x];
          UniqueAppend(seen, x);
          PositionFinds(seen, x.key);
        }
      }
    }
  }

  lemma Unfold(lines: seq<string>, seen: seq<Entry>, safe: set<Ip>, now: U64, es: seq<Entry>)
    requires lines != [] && |es| == |seen| + |lines|
    ensures WrittenAs(lines, seen, safe, now, es) <==>
            LineOf(lines[0], es[|seen|], safe, now) && WrittenAs(lines[1..], seen + [es[|seen|]], safe, now, es)
  {
    hide LineOf, UniqueKeys;
    var n := |seen|;
    assert es[..n + 1] == es[..n] + [es[n]];
    if WrittenAs(lines, seen, safe, now, es) {
      assert LineOf(lines[0], es[n + 0], safe, now);
      forall i | 0 <= i < |lines[1..]| ensures LineOf(lines[1..][i], es[n + 1 + i], safe, now) {
        assert LineOf(lines[i + 1], es[n + (i + 1)], safe, now);
      }
    }
    if LineOf(lines[0], es[n], safe, now) && WrittenAs(lines[1..], seen + [es[n]], safe, now, es) {
      forall i | 0 <= i < |lines| ensures LineOf(lines[i], es[n + i], safe, now) {
        if i > 0 { assert LineOf(lines[1..][i - 1], es[n + 1 + (i - 1)], safe, now); }
      }
      assert (seen + [es[n]])[..n] == seen;
      assert es[..n] == es[..n + 1][..n];
    }
  }

  // ------------------------------------------------------------------ the document, exactly

  /** A host name as `EndpointSpec::parse` leaves it. */
  predicate HostOk(host: string) {
    Token(host) && |host| <= 253
  }

  /** `text` is the document of `s`, with or without its final newline. */
  ghost predicate DocumentOf(text: string, host: string, port: Port, s: State) {
    Keyed(s.entries) && (text == Serialize(host, port, s) || text + "\n" == Serialize(host, port, s))
  }

  lemma LineIsClean(name: string, v: string)
    requires '\n' !in name && '\r' !in name && '\n' !in v && '\r' !in v
    ensures '\n' !in FieldLine(name, v) && '\r' !in FieldLine(name, v) && FieldLine(name, v) != []
    ensures |FieldLine(name, v)| == |name| + 1 + |v|
  {
  }

  ghost predicate Clean(l: string, max: nat) {
    l != [] && '\n' !in l && '\r' !in l && |l| <= max
  }

  lemma TokenLine(name: string, v: string)
    requires '\n' !in name && '\r' !in name && Token(v) && |name| + |v| <= 257
    ensures Clean(FieldLine(name, v), 258)
  {
    LineIsClean(name, v);
  }

  lemma HeadIsClean(host: string, port: Port, s: State, i: nat)
    requires HostOk(host) && i < 6
    ensures Clean(HeadLines(host, port, s)[i], 258)
  {
    hide Dec, FieldLine;
    NumeralLengths(port);
    NumeralLengths(s.tokens);
    NumeralLengths(s.updated);
    match i
    case 0 => assert HeadLines(host, port, s)[0] == HEADER;
    case 1 => TokenLine("version", "1");
    case 2 => TokenLine("host", host);
    case 3 => TokenLine("port", Dec(port));
    case 4 => TokenLine("global_tokens", Dec(s.tokens));
    case 5 => TokenLine("global_updated", Dec(s.updated));
  }

  lemma LinesAreClean(host: string, port: Port, s: State, i: nat)
    requires HostOk(host) && Keyed(s.entries) && i < 6 + |s.entries|
    requires forall e :: e in s.entries ==> |e.key.dnsSet| <= MAX_ENDPOINT_CANDIDATES
    ensures Clean(Lines(host, port, s)[i], 258)
  {
    hide Join, Dec, HeadLines;
    if i < 6 {
      HeadIsClean(host, port, s, i);
    } else {
      var e := s.entries[i - 6];
      EntryIsClean(e);
      LineIsClean("entry", Join(EntryFields(e), '|'));
      assert Lines(host, port, s)[i] == EntryLine(e);
      assert e in s.entries;
    }
  }

  lemma {:induction false} JoinEnds(parts: seq<string>, sep: char)
    requires |parts| >= 1 && Free(parts, sep) && forall i :: 0 <= i < |parts| ==> parts[i] != []
    ensures var t := Join(parts, sep); t != [] && t[|t| - 1] != sep
  {
    if |parts| > 1 {
      JoinEnds(parts[1..], sep);
    }
  }

  /** Every document that can be written fits the file limit. */
  lemma DocumentFits(host: string, port: Port, s: State)
    requires HostOk(host) && Keyed(s.entries) && |s.entries| <= MAX_BUDGET_ENTRIES
    requires forall e :: e in s.entries ==> |e.key.dnsSet| <= MAX_ENDPOINT_CANDIDATES
    ensures |Serialize(host, port, s)| <= STATE_MAX_BYTES
  {
    hide Join, Dec, HeadLines, EntryLines, Lines;
    var ls := Lines(host, port, s);
    forall i | 0 <= i < |ls| ensures |ls[i]| <= 258 {
      LinesAreClean(host, port, s, i);
    }
    JoinLength(ls, '\n', 258);
  }

  lemma WrittenLoads(text: string, host: string, port: Port, capacity: U32, safe: set<Ip>, now: U64, s: State)
    requires HostOk(host) && DocumentOf(text, host, port, s) && Accepted(s, capacity, safe, now)
    ensures Load(text, host, port, capacity, safe, now) == Some(s)
  {
    hide Join, Split, Dec, Field, EntryAccepted, EntryLine;
    var ls := Lines(host, port, s);
    var body := Join(ls, '\n');
    assert forall e :: e in s.entries ==> |e.key.dnsSet| <= MAX_ENDPOINT_CANDIDATES by {
      forall e | e in s.entries ensures |e.key.dnsSet| <= MAX_ENDPOINT_CANDIDATES { AcceptedSet(e, safe, now); }
    }
    forall i | 0 <= i < |ls| ensures ls[i] != [] && '\n' !in ls[i] && '\r' !in ls[i] {
      LinesAreClean(host, port, s, i);
    }
    DocumentFits(host, port, s);
    JoinEnds(ls, '\n');
    JoinChars(ls, '\n', '\r');
    SplitJoin(ls, '\n');
    BodyOf(text, body);
    assert StripNewline(text) == body;
    HeadFields(host, port, s);
    assert ls[..6] == HeadLines(host, port, s);
    assert ls[6..] == EntryLines(s.entries);
    ParseOfDec(s.tokens, U32_MAX);
    ParseOfDec(s.updated, U64_MAX);
    EntriesLoad(s, capacity, safe, now);
  }

  lemma EntriesLoad(s: State, capacity: U32, safe: set<Ip>, now: U64)
    requires Accepted(s, capacity, safe, now) && Keyed(s.entries)
    ensures ParseEntries(EntryLines(s.entries), [], safe, now) == Some(s.entries)
  {
    hide EntryAccepted, EntryLine;
    var ls := EntryLines(s.entries);
    assert WrittenAs(ls, [], safe, now, s.entries) by {
      forall i | 0 <= i < |s.entries| ensures LineOf(ls[i], s.entries[0 + i], safe, now) {
        assert s.entries[i] in s.entries;
      }
    }
    EntriesExact(ls, [], safe, now, s.entries);
  }

  lemma AcceptedSet(e: Entry, safe: set<Ip>, now: U64)
    requires EntryAccepted(e, safe, now)
    ensures 1 <= |e.key.dnsSet| <= MAX_ENDPOINT_CANDIDATES
  {
  }

  lemma BodyOf(text: string, body: string)
    requires text == body + "\n" || text + "\n" == body + "\n"
    requires body != [] && body[|body| - 1] != '\n'
    ensures StripNewline(text) == body
  {
    if text != body + "\n" {
      assert text == (text + "\n")[..|text|] && body == (body + "\n")[..|body|];
    }
  }

  lemma HeadFields(host: string, port: Port, s: State)
    requires HostOk(host)
    ensures var h := HeadLines(host, port, s);
            && h[0] == HEADER
            && Field(h[1], "version") == Some("1")
            && Field(h[2], "host") == Some(host)
            && Field(h[3], "port") == Some(Dec(port))
            && Field(h[4], "global_tokens") == Some(Dec(s.tokens))
            && Field(h[5], "global_updated") == Some(Dec(s.updated))
  {
    hide Field;
    DecIsToken(port);
    DecIsToken(s.tokens);
    DecIsToken(s.updated);
    FieldOfToken("version", "1");
    FieldOfToken("host", host);
    FieldOfToken("port", Dec(port));
    FieldOfToken("global_tokens", Dec(s.tokens));
    FieldOfToken("global_updated", Dec(s.updated));
  }

  lemma LoadedEntries(lines: seq<string>, safe: set<Ip>, now: U64, es: seq<Entry>)
    requires ParseEntries(lines, [], safe, now) == Some(es)
    ensures Keyed(es) && lines == EntryLines(es) && UniqueKeys(es) && forall e :: e in es ==> EntryAccepted(e, safe, now)
  {
    hide EntryAccepted, EntryLine, ParseEntries;
    EntriesExact(lines, [], safe, now, es);
    forall i | 0 <= i < |es|
      ensures es[i].key.dnsSet != [] && lines[i] == EntryLine(es[i]) && EntryAccepted(es[i], safe, now)
    {
      assert LineOf(lines[i], es[0 + i], safe, now);
    }
    assert lines == EntryLines(es);
  }

  lemma LoadedIsWritten(text: string, host: string, port: Port, capacity: U32, safe: set<Ip>, now: U64, s: State)
    requires Load(text, host, port, capacity, safe, now) == Some(s)
    ensures DocumentOf(text, host, port, s) && Accepted(s, capacity, safe, now)
  {
    hide Join, Split, Dec, Field, EntryAccepted, EntryLine, ParseEntries, UniqueKeys, EntryLines;
    var body := StripNewline(text);
    var lines := Split(body, '\n');
    JoinSplit(body, '\n');
    LoadedEntries(lines[6..], safe, now, s.entries);
    assert lines[..6] == HeadLines(host, port, s);
    assert lines == Lines(host, port, s);
  }

  /** A document loads to a state exactly when it is that state's document and the state passes the
      checks against the clock: nothing else is accepted, and nothing written is lost. */
  lemma LoadExact(text: string, host: string, port: Port, capacity: U32, safe: set<Ip>, now: U64, s: State)
    requires HostOk(host)
    ensures Load(text, host, port, capacity, safe, now) == Some(s) <==>
            DocumentOf(text, host, port, s) && Accepted(s, capacity, safe, now)
  {
    if Load(text, host, port, capacity, safe, now) == Some(s) {
      LoadedIsWritten(text, host, port, capacity, safe, now, s);
    }
    if DocumentOf(text, host, port, s) && Accepted(s, capacity, safe, now) {
      WrittenLoads(text, host, port, capacity, safe, now, s);
    }
  }
}
