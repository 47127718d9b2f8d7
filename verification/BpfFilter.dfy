/** getBpfFilterString, and what the text means under the pcap-filter(7) grammar, in which
    "and" and "or" have the same precedence and associate to the left. */
module BpfFilter {

  const BPF_FILTER := "udp and port 53"

  /** strings.Join */
  function Join(parts: seq<string>, sep: string): string {
    if parts == [] then ""
    else if |parts| == 1 then parts[0]
    else parts[0] + sep + Join(parts[1..], sep)
  }

  function HostTexts(ips: seq<string>): seq<string> {
    seq(|ips|, i requires 0 <= i < |ips| => "host " + ips[i] + " ")
  }

  function FilterText(ips: seq<string>): string {
    if ips == [] then BPF_FILTER else Join(HostTexts(ips), "or ") + ("and " + BPF_FILTER)
  }

  /** ips are the addresses' texts. */
  method GetBpfFilterString(ips: seq<string>) returns (filter: string)
    ensures filter == FilterText(ips)
  {
    if |ips| == 0 {
      return BPF_FILTER;
    }
    var hosts: seq<string> := [];
    for i := 0 to |ips|
      invariant hosts == HostTexts(ips[..i])
    {
      assert ips[..i + 1] == ips[..i] + [ips[i]];
      hosts := hosts + ["host " + ips[i] + " "];
    }
    assert ips[..|ips|] == ips;
    filter := "";
    filter := filter + Join(hosts, "or ");
    filter := filter + ("and " + BPF_FILTER);
  }

  // ----- the meaning of a filter text

  /** Words of a text, separated by single spaces. */
  function Words(s: string): seq<string> {
    if s == [] then [[]]
    else if s[0] == ' ' then [[]] + Words(s[1..])
    else
      var rest := Words(s[1..]);
      if rest == [] then [[s[0]]] else [[s[0]] + rest[0]] + rest[1..]
  }

  datatype Packet = Packet(src: string, dst: string, udp: bool, srcPort: string, dstPort: string)

  /** One primitive at the front of the words: its value and the words after it. */
  datatype Parse = Bad | Good(value: bool, rest: seq<string>)

  function Primitive(words: seq<string>, p: Packet): (r: Parse)
    ensures r.Good? ==> |r.rest| < |words|
  {
    if words == [] then Bad
    else if words[0] == "udp" then Good(p.udp, words[1..])
    else if |words| >= 2 && words[0] == "host" then Good(p.src == words[1] || p.dst == words[1], words[2..])
    else if |words| >= 2 && words[0] == "port" then Good(p.srcPort == words[1] || p.dstPort == words[1], words[2..])
    else Bad
  }

  /** Whether the rest of an expression, whose beginning has the given value, accepts. */
  function Continue(value: bool, words: seq<string>, p: Packet): Parse
    decreases |words|
  {
    if words == [] then Good(value, [])
    else if words[0] != "and" && words[0] != "or" then Bad
    else
      match Primitive(words[1..], p)
      case Bad => Bad
      case Good(v, rest) => Continue(if words[0] == "and" then value && v else value || v, rest, p)
  }

  function Meaning(s: string, p: Packet): Parse {
    match Primitive(Words(s), p)
    case Bad => Bad
    case Good(v, rest) => Continue(v, rest, p)
  }

  // ----- the filter selects DNS traffic of the given hosts

  /** An address prints as a word. */
  predicate IsWord(s: string) {
    s != [] && ' ' !in s
  }

  predicate Matches(ip: string, p: Packet) {
    p.src == ip || p.dst == ip
  }

  predicate IsDns(p: Packet) {
    p.udp && (p.srcPort == "53" || p.dstPort == "53")
  }

  lemma {:induction false} FirstWord(w: string, rest: string)
    requires ' ' !in w
    ensures Words(w + " " + rest) == [w] + Words(rest)
  {
    var s := w + " " + rest;
    if w == [] {
      assert s[1..] == rest;
    } else {
      FirstWord(w[1..], rest);
      assert s[1..] == w[1..] + " " + rest;
      assert Words(s[1..])[0] == w[1..] && Words(s[1..])[1..] == Words(rest);
      assert [s[0]] + w[1..] == w;
    }
  }

  lemma {:induction false} OnlyWord(w: string)
    requires ' ' !in w
    ensures Words(w) == [w]
  {
    if w != [] {
      OnlyWord(w[1..]);
      assert [w[0]] + w[1..] == w;
    }
  }

  lemma PortWords()
    ensures Words("port 53") == ["port", "53"]
  {
    hide Words;
    OnlyWord("53");
    FirstWord("port", "53");
    assert "port" + " " + "53" == "port 53";
  }

  lemma AndPortWords()
    ensures Words("and port 53") == ["and", "port", "53"]
  {
    hide Words;
    PortWords();
    FirstWord("and", "port 53");
    assert "and" + " " + "port 53" == "and port 53";
  }

  lemma FilterWords()
    ensures Words(BPF_FILTER) == ["udp", "and", "port", "53"]
  {
    hide Words;
    AndPortWords();
    FirstWord("udp", "and port 53");
    assert "udp" + " " + "and port 53" == BPF_FILTER;
  }

  lemma TailWords()
    ensures Words("and " + BPF_FILTER) == ["and", "udp", "and", "port", "53"]
  {
    hide Words;
    FilterWords();
    FirstWord("and", BPF_FILTER);
    assert "and" + " " + BPF_FILTER == "and " + BPF_FILTER;
  }

  /** The words that follow the first host, given the remaining ones. */
  function After(ips: seq<string>): seq<string> {
    if ips == [] then ["and", "udp", "and", "port", "53"]
    else ["or", "host", ips[0]] + After(ips[1..])
  }

  lemma {:induction false} JoinedWords(ips: seq<string>)
    requires ips != [] && forall ip :: ip in ips ==> IsWord(ip)
    ensures Words(Join(HostTexts(ips), "or ") + ("and " + BPF_FILTER)) == ["host", ips[0]] + After(ips[1..])
  {
    hide Words;
    var ip, rest := ips[0], ips[1..];
    assert ip in ips && forall x :: x in rest ==> x in ips;
    var hosts, tail := HostTexts(ips), "and " + BPF_FILTER;
    HostThen(ip, tail);
    TailWords();
    if rest != [] {
      assert hosts[1..] == HostTexts(rest);
      JoinedWords(rest);
      OrThen(hosts[0], Join(HostTexts(rest), "or "), tail);
      HostThen(ip, "or " + (Join(HostTexts(rest), "or ") + tail));
      assert ["or"] + (["host", rest[0]] + After(rest[1..])) == After(rest);
    }
  }

  lemma OrThen(host: string, others: string, tail: string)
    ensures host + "or " + others + tail == host + ("or " + (others + tail))
    ensures Words("or " + (others + tail)) == ["or"] + Words(others + tail)
  {
    hide Words;
    FirstWord("or", others + tail);
    assert "or" + " " + (others + tail) == "or " + (others + tail);
  }

  lemma HostThen(ip: string, tail: string)
    requires IsWord(ip)
    ensures Words("host " + ip + " " + tail) == ["host", ip] + Words(tail)
  {
    hide Words;
    FirstWord(ip, tail);
    FirstWord("host", ip + " " + tail);
    assert "host" + " " + (ip + " " + tail) == "host " + ip + " " + tail;
  }

  ghost predicate AnyMatches(ips: seq<string>, p: Packet) {
    exists ip :: ip in ips && Matches(ip, p)
  }

  /** Reading on after some hosts: "or" widens what matched so far, and the final "and"s
      narrow all of it. */
  lemma {:induction false} HostsThenDns(value: bool, ips: seq<string>, p: Packet)
    ensures Continue(value, After(ips), p) == Good((value || AnyMatches(ips, p)) && IsDns(p), [])
    decreases |ips|
  {
    if ips == [] {
      DnsTail(value, p);
    } else {
      var ip, rest := ips[0], ips[1..];
      HostsThenDns(value || Matches(ip, p), rest, p);
      OrHost(value, ip, After(rest), p);
      AnyMatchesCons(ips, p);
    }
  }

  lemma AnyMatchesCons(ips: seq<string>, p: Packet)
    requires ips != []
    ensures AnyMatches(ips, p) <==> Matches(ips[0], p) || AnyMatches(ips[1..], p)
  {
    assert ips[0] in ips && forall x :: x in ips[1..] ==> x in ips;
  }

  lemma OrHost(value: bool, ip: string, after: seq<string>, p: Packet)
    ensures Continue(value, ["or", "host", ip] + after, p) == Continue(value || Matches(ip, p), after, p)
  {
    var words := ["or", "host", ip] + after;
    assert words[1..] == ["host", ip] + after && words[1..][2..] == after;
  }

  lemma AndPort(value: bool, p: Packet)
    ensures Continue(value, ["and", "port", "53"], p)
            == Good(value && (p.srcPort == "53" || p.dstPort == "53"), [])
  {
    var words := ["and", "port", "53"];
    assert words[1..] == ["port", "53"] && words[1..][2..] == [];
  }

  lemma DnsTail(value: bool, p: Packet)
    ensures Continue(value, ["and", "udp", "and", "port", "53"], p) == Good(value && IsDns(p), [])
  {
    var words := ["and", "udp", "and", "port", "53"];
    assert words[1..] == ["udp", "and", "port", "53"];
    assert words[1..][1..] == ["and", "port", "53"];
    AndPort(value && p.udp, p);
  }

  lemma NoHosts(p: Packet)
    ensures Meaning(BPF_FILTER, p) == Good(IsDns(p), [])
  {
    FilterWords();
    assert ["udp", "and", "port", "53"][1..] == ["and", "port", "53"];
    AndPort(p.udp, p);
  }

  lemma HostFirst(ip: string, after: seq<string>, p: Packet)
    ensures Primitive(["host", ip] + after, p) == Good(Matches(ip, p), after)
  {
    assert (["host", ip] + after)[2..] == after;
  }

  lemma SomeHosts(ips: seq<string>, p: Packet)
    requires ips != [] && forall ip :: ip in ips ==> IsWord(ip)
    ensures Meaning(Join(HostTexts(ips), "or ") + ("and " + BPF_FILTER), p)
            == Good(AnyMatches(ips, p) && IsDns(p), [])
  {
    JoinedWords(ips);
    HostFirst(ips[0], After(ips[1..]), p);
    HostsThenDns(Matches(ips[0], p), ips[1..], p);
    AnyMatchesCons(ips, p);
  }

  /** The generated filter accepts a packet exactly when it is DNS over UDP and, if addresses
      are given, one of them is its source or destination. */
  lemma FilterSelects(ips: seq<string>, p: Packet)
    requires forall ip :: ip in ips ==> IsWord(ip)
    ensures Meaning(FilterText(ips), p) == Good((ips == [] || AnyMatches(ips, p)) && IsDns(p), [])
  {
    if ips == [] {
      NoHosts(p);
    } else {
      SomeHosts(ips, p);
    }
  }
}
