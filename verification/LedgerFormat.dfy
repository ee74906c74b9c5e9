/** The ledger document as a reader of the file sees it. */
module LedgerFormat {
  import opened Machine
  import opened Relay
  import opened Text
  import opened Ledger
  import opened LedgerText

  /** One line per entry: address, count, cooldown end, last use, and the answer between commas. */
  function EntryText(es: seq<Entry>): string
    requires Keyed(es)
  {
    if es == [] then ""
    else
      "entry=" + Dotted(es[0].key.candidate) + "|" + Dec(es[0].charged) + "|" + Dec(es[0].notBefore) + "|"
        + Dec(es[0].lastUsed) + "|" + Commas(es[0].key.dnsSet) + "\n" + EntryText(es[1..])
  }

  function Commas(ips: seq<Ip>): string
    requires ips != []
  {
    if |ips| == 1 then Dotted(ips[0]) else Dotted(ips[0]) + "," + Commas(ips[1..])
  }

  lemma {:induction false} CommasIs(ips: seq<Ip>)
    requires ips != []
    ensures Join(DottedAll(ips), ',') == Commas(ips)
  {
    hide Dotted;
    if |ips| > 1 {
      CommasIs(ips[1..]);
      assert DottedAll(ips)[1..] == DottedAll(ips[1..]);
      assert [','] == ",";
    } else {
      assert DottedAll(ips)[0] == Dotted(ips[0]);
    }
  }

  lemma FiveJoined(a: string, b: string, c: string, d: string, e: string)
    ensures Join([a, b, c, d, e], '|') == a + "|" + b + "|" + c + "|" + d + "|" + e
  {
    assert [a, b, c, d, e][1..] == [b, c, d, e] && [b, c, d, e][1..] == [c, d, e] && [c, d, e][1..] == [d, e] && [d, e][1..] == [e];
    assert Join([d, e], '|') == d + ['|'] + e;
    assert Join([c, d, e], '|') == c + ['|'] + Join([d, e], '|');
    assert Join([b, c, d, e], '|') == b + ['|'] + Join([c, d, e], '|');
  }

  lemma LineText(e: Entry, rest: string)
    requires e.key.dnsSet != []
    ensures EntryLine(e) + "\n" + rest ==
              "entry=" + Dotted(e.key.candidate) + "|" + Dec(e.charged) + "|" + Dec(e.notBefore) + "|"
              + Dec(e.lastUsed) + "|" + Commas(e.key.dnsSet) + "\n" + rest
  {
    hide Dotted, Dec, Join, Commas, DottedAll;
    CommasIs(e.key.dnsSet);
    FiveJoined(Dotted(e.key.candidate), Dec(e.charged), Dec(e.notBefore), Dec(e.lastUsed), Commas(e.key.dnsSet));
  }

  lemma {:induction false} EntriesText(es: seq<Entry>)
    requires Keyed(es) && es != []
    ensures Join(EntryLines(es), '\n') + "\n" == EntryText(es)
  {
    hide EntryLine, Dotted, Dec, Commas;
    LineText(es[0], EntryText(es[1..]));
    if |es| > 1 {
      EntriesText(es[1..]);
      assert EntryLines(es)[1..] == EntryLines(es[1..]);
    } else {
      assert EntryText(es[1..]) == "";
      assert EntryLine(es[0]) + "\n" + "" == EntryLine(es[0]) + "\n";
    }
  }

  /** The whole document, as a reader of the file sees it. */
  lemma DocumentText(host: string, port: Port, s: State)
    requires Keyed(s.entries)
    ensures Serialize(host, port, s) ==
              "# udp2raw fallback state v1" + "\n" + "version=1" + "\n" + "host=" + host + "\n" + "port=" + Dec(port) + "\n"
              + "global_tokens=" + Dec(s.tokens) + "\n" + "global_updated=" + Dec(s.updated) + "\n" + EntryText(s.entries)
  {
    hide Dec, EntryText, EntryLines, EntryLine;
    var h := HeadLines(host, port, s);
    HeadText(host, port, s);
    if s.entries == [] {
      assert EntryLines(s.entries) == [];
      assert Lines(host, port, s) == h;
      assert EntryText(s.entries) == "" by { NoEntries(); }
    } else {
      JoinConcat(h, EntryLines(s.entries));
      EntriesText(s.entries);
    }
  }

  lemma NoEntries()
    ensures EntryText([]) == ""
  {
  }

  lemma {:induction false} JoinConcat(a: seq<string>, b: seq<string>)
    requires a != [] && b != []
    ensures Join(a + b, '\n') == Join(a, '\n') + "\n" + Join(b, '\n')
  {
    if |a| == 1 {
      assert (a + b)[1..] == b;
    } else {
      assert (a + b)[1..] == a[1..] + b;
      JoinConcat(a[1..], b);
    }
  }

  lemma HeadText(host: string, port: Port, s: State)
    ensures Join(HeadLines(host, port, s), '\n') ==
              "# udp2raw fallback state v1" + "\n" + "version=1" + "\n" + "host=" + host + "\n" + "port=" + Dec(port) + "\n"
              + "global_tokens=" + Dec(s.tokens) + "\n" + "global_updated=" + Dec(s.updated)
  {
    hide Dec, Join, FieldLine;
    JoinSix(HEADER, FieldLine("version", "1"), FieldLine("host", host), FieldLine("port", Dec(port)),
            FieldLine("global_tokens", Dec(s.tokens)), FieldLine("global_updated", Dec(s.updated)));
    VersionLine();
    NamedLine("host", "host=", host);
    NamedLine("port", "port=", Dec(port));
    NamedLine("global_tokens", "global_tokens=", Dec(s.tokens));
    NamedLine("global_updated", "global_updated=", Dec(s.updated));
    Reassociate(HEADER + "\n" + "version=1" + "\n", "host=", host, "\n", "port=", Dec(port));
    Reassociate(HEADER + "\n" + "version=1" + "\n" + "host=" + host + "\n" + "port=" + Dec(port) + "\n",
                "global_tokens=", Dec(s.tokens), "\n", "global_updated=", Dec(s.updated));
  }

  lemma VersionLine()
    ensures FieldLine("version", "1") == "version=1"
  {
  }

  lemma NamedLine(name: string, prefix: string, value: string)
    requires prefix == name + "="
    ensures FieldLine(name, value) == prefix + value
  {
  }

  lemma Reassociate(a: string, b: string, c: string, d: string, e: string, f: string)
    ensures a + (b + c) + d + (e + f) == a + b + c + d + e + f
  {
  }

  lemma JoinSix(a: string, b: string, c: string, d: string, e: string, f: string)
    ensures Join([a, b, c, d, e, f], '\n') == a + "\n" + b + "\n" + c + "\n" + d + "\n" + e + "\n" + f
  {
    hide Join;
    JoinTwo(e, f);
    assert [d, e, f] == [d] + [e, f] && [c, d, e, f] == [c] + [d, e, f];
    assert [b, c, d, e, f] == [b] + [c, d, e, f] && [a, b, c, d, e, f] == [a] + [b, c, d, e, f];
    JoinConcat([d], [e, f]);
    JoinConcat([c], [d, e, f]);
    JoinConcat([b], [c, d, e, f]);
    JoinConcat([a], [b, c, d, e, f]);
    JoinOne(a);
    JoinOne(b);
    JoinOne(c);
    JoinOne(d);
  }

  lemma JoinOne(a: string)
    ensures Join([a], '\n') == a
  {
  }

  lemma JoinTwo(a: string, b: string)
    ensures Join([a, b], '\n') == a + "\n" + b
  {
    assert [a, b][1..] == [b];
  }

  /** Addresses are written most significant octet first, in decimal. */
  lemma SampleAddresses()
    ensures Dotted(0xC633_6407) == "198.51.100.7"
  {
    hide Dec;
    SampleNumerals();
    assert Octets(0xC633_6407) == [198, 51, 100, 7];
    var q := ["198", "51", "100", "7"];
    assert q[1..] == ["51", "100", "7"] && q[1..][1..] == ["100", "7"] && q[1..][1..][1..] == ["7"];
    assert Join(["100", "7"], '.') == "100.7";
    assert Join(["51", "100", "7"], '.') == "51.100.7";
  }

  lemma SampleNumerals()
    ensures Dec(198) == "198" && Dec(51) == "51" && Dec(100) == "100" && Dec(7) == "7"
  {
    assert Dec(19) == "19" && Dec(10) == "10";
  }

  /** White space is the space and the five control characters from the tabulator to the carriage return. */
  lemma WhiteIs(c: char)
    ensures White(c) <==> c == ' ' || 9 <= c as int <= 13
  {
  }
}
