/**
 When a custom domain counts as pointed at us: what the records of one resolver say, and the
 CAA rules of RFC 8659. Names are lists of labels, in lower case; so are addresses.
 */
module Dns {
  import opened Util

  type Name = seq<string>

  datatype RType = TypeA | TypeAAAA | TypeTXT | TypeCAA

  datatype Record =
    | CName(owner: Name, target: Name)
    | A(owner: Name, address: string)
    | AAAA(owner: Name, address: string)
    | Txt(owner: Name, text: string)
    | Caa(owner: Name, tag: string, issuer: string)

  /** NOERROR, NXDOMAIN, or anything else. */
  datatype Status = NoError | NxDomain | Failure

  datatype Answer = Answer(status: Status, records: seq<Record>)

  datatype Question = Question(resolver: string, name: Name, rtype: RType)

  /** What the resolvers answer while a check runs. */
  type Dns = map<Question, Answer>

  function Ask(dns: Dns, resolver: string, name: Name, rtype: RType): Answer {
    var q := Question(resolver, name, rtype);
    if q in dns then dns[q] else Answer(Failure, [])
  }

  /** The tenant's web host, the provider's domain, the domain's verification code, this
      server's addresses and the addresses of known CDNs. */
  datatype Setup = Setup(target: Name, provider: Name, token: string, ipv4: Option<string>, ipv6: Option<string>, cdn: set<string>)

  datatype Method = ByCname | ByTxt

  datatype Code =
    | LookupFailed | OtherAccount | BehindCdn | CnameElsewhere | NoRecord | AMismatch | AaaaMismatch
    | TxtMissing | TxtWrong | CaaForbids | Disagree

  type Verdict = Result<Method, Code>

  const LETS_ENCRYPT := "letsencrypt.org"
  const VERIFY_LABEL := "_rdf-verify"
  const MAX_HOPS: nat := 10

  // CNAME chains

  /** The target of a name's CNAME record; the last one counts if there are several. */
  function CnameOf(records: seq<Record>, name: Name): Option<Name> {
    if records == [] then None
    else
      var r := records[|records| - 1];
      if r.CName? && r.owner == name then Some(r.target) else CnameOf(records[..|records| - 1], name)
  }

  /** The name reached after n hops. */
  function Hop(records: seq<Record>, name: Name, n: nat): Option<Name> {
    if n == 0 then Some(name)
    else
      var before := Hop(records, name, n - 1);
      if before.None? then None else CnameOf(records, before.value)
  }

  predicate Reaches(records: seq<Record>, name: Name, target: Name) {
    exists n :: 1 <= n <= MAX_HOPS && Hop(records, name, n) == Some(target)
  }

  /** The name is the domain or lies under it. */
  predicate Under(name: Name, domain: Name) {
    name == domain || (0 < |domain| <= |name| && name[|name| - |domain|..] == domain)
  }

  predicate ReachesUnder(records: seq<Record>, name: Name, domain: Name) {
    exists n :: 1 <= n <= MAX_HOPS && Hop(records, name, n).Some? && Under(Hop(records, name, n).value, domain)
  }

  // One resolver

  function Ipv4s(records: seq<Record>): set<string> {
    set r | r in records && r.A? :: r.address
  }

  function Ipv6s(records: seq<Record>): set<string> {
    set r | r in records && r.AAAA? :: r.address
  }

  function Texts(records: seq<Record>, name: Name): set<string> {
    set r | r in records && r.Txt? && r.owner == name :: r.text
  }

  function VerifyName(domain: Name): Name {
    [VERIFY_LABEL] + domain
  }

  /** What one resolver says of the domain. */
  datatype View = View(found: bool, records: seq<Record>, v4: set<string>, v6: set<string>, txt: Answer)

  function ViewOf(dns: Dns, resolver: string, domain: Name): View {
    var a, b := Ask(dns, resolver, domain, TypeA), Ask(dns, resolver, domain, TypeAAAA);
    View(a.status != Failure && b.status != Failure, a.records + b.records, Ipv4s(a.records), Ipv6s(b.records),
         Ask(dns, resolver, VerifyName(domain), TypeTXT))
  }

  function AllowedIpv6(s: Setup): set<string> {
    if s.ipv6.Some? then {s.ipv6.value} else {}
  }

  /** Why the addresses do not point here, if they do not. */
  function AddressProblem(v: View, s: Setup): Option<Code> {
    if v.v4 == {} && v.v6 == {} then Some(NoRecord)
    else if (v.v4 + v.v6) * s.cdn != {} then Some(BehindCdn)
    else if s.ipv4.None? || v.v4 != {s.ipv4.value} then Some(AMismatch)
    else if !(v.v6 <= AllowedIpv6(s)) then Some(AaaaMismatch)
    else None
  }

  function TxtProblem(v: View, domain: Name, s: Setup): Option<Code> {
    var texts := Texts(v.txt.records, VerifyName(domain));
    if v.txt.status == Failure then Some(LookupFailed)
    else if texts == {} then Some(TxtMissing)
    else if s.token == "" || s.token !in texts then Some(TxtWrong)
    else None
  }

  function CnameVerdict(v: View, domain: Name, s: Setup): Verdict {
    if Reaches(v.records, domain, s.target) then Ok(ByCname)
    else if ReachesUnder(v.records, domain, s.provider) then Err(OtherAccount)
    else if (v.v4 + v.v6) * s.cdn != {} then Err(BehindCdn)
    else Err(CnameElsewhere)
  }

  function Judged(dns: Dns, resolver: string, domain: Name, s: Setup): Verdict {
    var v := ViewOf(dns, resolver, domain);
    if !v.found then Err(LookupFailed)
    else if CnameOf(v.records, domain).Some? then CnameVerdict(v, domain, s)
    else
      var a, t := AddressProblem(v, s), TxtProblem(v, domain, s);
      if a.Some? then Err(a.value) else if t.Some? then Err(t.value) else Ok(ByTxt)
  }

  // The same, of the answers themselves

  /** The record that counts for a name's CNAME: the last one that it owns. */
  predicate PointsTo(records: seq<Record>, name: Name, target: Name) {
    exists i :: 0 <= i < |records| && records[i] == CName(name, target) && NoneAfter(records, name, i)
  }

  predicate NoneAfter(records: seq<Record>, name: Name, i: nat) {
    forall j | i < j < |records| :: !(records[j].CName? && records[j].owner == name)
  }

  /** Each name of the chain is the previous one's CNAME. */
  predicate Chained(records: seq<Record>, chain: seq<Name>) {
    forall i | 0 < i < |chain| :: PointsTo(records, chain[i - 1], chain[i])
  }

  /** One to ten CNAMEs lead from the name to the target. */
  ghost predicate LeadsTo(records: seq<Record>, name: Name, target: Name) {
    exists chain: seq<Name> {:trigger Chained(records, chain)} ::
      2 <= |chain| <= 11 && chain[0] == name && chain[|chain| - 1] == target && Chained(records, chain)
  }

  predicate HasNoCname(records: seq<Record>, name: Name) {
    forall r | r in records :: !(r.CName? && r.owner == name)
  }

  /** Both address lookups succeed, and their CNAMEs lead to the tenant's host. */
  ghost predicate PassesByCname(dns: Dns, resolver: string, domain: Name, s: Setup) {
    var a, b := Ask(dns, resolver, domain, TypeA), Ask(dns, resolver, domain, TypeAAAA);
    a.status != Failure && b.status != Failure && LeadsTo(a.records + b.records, domain, s.target)
  }

  /** Both address lookups succeed and neither answer has a CNAME of the domain; the first has an A record
      and only such of this server, the second no AAAA record but of this server; none of these is a CDN's;
      and the text lookup succeeds and shows the domain's verification code. */
  predicate PassesByTxt(dns: Dns, resolver: string, domain: Name, s: Setup) {
    var a, b := Ask(dns, resolver, domain, TypeA), Ask(dns, resolver, domain, TypeAAAA);
    var t := Ask(dns, resolver, ["_rdf-verify"] + domain, TypeTXT);
    && a.status != Failure && b.status != Failure && t.status != Failure
    && HasNoCname(a.records, domain) && HasNoCname(b.records, domain)
    && (exists r | r in a.records :: r.A?)
    && (forall r | r in a.records && r.A? :: s.ipv4 == Some(r.address) && r.address !in s.cdn)
    && (forall r | r in b.records && r.AAAA? :: s.ipv6 == Some(r.address) && r.address !in s.cdn)
    && s.token != "" && Txt(["_rdf-verify"] + domain, s.token) in t.records
  }

  lemma CodeExactly(dns: Dns, resolver: string, domain: Name, s: Setup)
    ensures var t := Ask(dns, resolver, ["_rdf-verify"] + domain, TypeTXT);
            TxtProblem(ViewOf(dns, resolver, domain), domain, s).None? <==>
              t.status != Failure && s.token != "" && Txt(["_rdf-verify"] + domain, s.token) in t.records
  {
    var t := Ask(dns, resolver, ["_rdf-verify"] + domain, TypeTXT);
    var name := ["_rdf-verify"] + domain;
    assert ViewOf(dns, resolver, domain).txt == t && VerifyName(domain) == name;
    assert s.token in Texts(t.records, name) <==> Txt(name, s.token) in t.records by {
      hide Ask;
      if s.token in Texts(t.records, name) {
        var r :| r in t.records && r.Txt? && r.owner == name && r.text == s.token;
        assert r == Txt(name, s.token);
      }
      if Txt(name, s.token) in t.records {
        assert Txt(name, s.token).text in Texts(t.records, name);
      }
    }
    hide Ask, Texts;
  }

  // Why a resolver does not pass

  /** One of the addresses is a CDN's. */
  predicate BehindProxy(a: Answer, b: Answer, s: Setup) {
    || (exists r | r in a.records :: r.A? && r.address in s.cdn)
    || (exists r | r in b.records :: r.AAAA? && r.address in s.cdn)
  }

  /** The CNAMEs lead to some host of the provider: its domain, or a name below it. */
  ghost predicate LeadsToProvider(records: seq<Record>, name: Name, provider: Name) {
    exists target :: LeadsTo(records, name, target)
                     && (target == provider || (provider != [] && exists labels: Name :: target == labels + provider))
  }

  lemma UnderIs(name: Name, domain: Name)
    ensures Under(name, domain) <==> name == domain || (domain != [] && exists labels: Name :: name == labels + domain)
  {
    if Under(name, domain) && name != domain {
      assert name == name[..|name| - |domain|] + domain;
    }
  }

  lemma ReachesProvider(records: seq<Record>, name: Name, provider: Name)
    ensures ReachesUnder(records, name, provider) <==> LeadsToProvider(records, name, provider)
  {
    hide Hop, LeadsTo, Under;
    if ReachesUnder(records, name, provider) {
      var n :| 1 <= n <= MAX_HOPS && Hop(records, name, n).Some? && Under(Hop(records, name, n).value, provider);
      var target := Hop(records, name, n).value;
      ReachesLeads(records, name, target);
      UnderIs(target, provider);
    }
    if LeadsToProvider(records, name, provider) {
      var target :| LeadsTo(records, name, target)
                    && (target == provider || (provider != [] && exists labels: Name :: target == labels + provider));
      ReachesLeads(records, name, target);
      UnderIs(target, provider);
    }
  }

  lemma ProxyIs(dns: Dns, resolver: string, domain: Name, s: Setup)
    ensures var v := ViewOf(dns, resolver, domain);
            (v.v4 + v.v6) * s.cdn != {} <==>
              BehindProxy(Ask(dns, resolver, domain, TypeA), Ask(dns, resolver, domain, TypeAAAA), s)
  {
    var a, b := Ask(dns, resolver, domain, TypeA), Ask(dns, resolver, domain, TypeAAAA);
    var v := ViewOf(dns, resolver, domain);
    assert v.v4 == Ipv4s(a.records) && v.v6 == Ipv6s(b.records);
    hide Ask, ViewOf;
    if x :| x in (v.v4 + v.v6) * s.cdn {
      assert BehindProxy(a, b, s);
    }
    if BehindProxy(a, b, s) {
      var r :| (r in a.records && r.A? && r.address in s.cdn) || (r in b.records && r.AAAA? && r.address in s.cdn);
      assert r.address in (v.v4 + v.v6) * s.cdn;
    }
  }

  /** With a CNAME of its own, a domain that does not pass is told where the CNAMEs lead. */
  lemma CnameCodes(dns: Dns, resolver: string, domain: Name, s: Setup)
    requires Ask(dns, resolver, domain, TypeA).status != Failure && Ask(dns, resolver, domain, TypeAAAA).status != Failure
    requires !HasNoCname(Ask(dns, resolver, domain, TypeA).records + Ask(dns, resolver, domain, TypeAAAA).records, domain)
    ensures var a, b := Ask(dns, resolver, domain, TypeA), Ask(dns, resolver, domain, TypeAAAA);
            Judged(dns, resolver, domain, s) ==
              if LeadsTo(a.records + b.records, domain, s.target) then Ok(ByCname)
              else if LeadsToProvider(a.records + b.records, domain, s.provider) then Err(OtherAccount)
              else if BehindProxy(a, b, s) then Err(BehindCdn)
              else Err(CnameElsewhere)
  {
    var a, b := Ask(dns, resolver, domain, TypeA), Ask(dns, resolver, domain, TypeAAAA);
    NoCname(a.records + b.records, domain);
    ReachesLeads(a.records + b.records, domain, s.target);
    ReachesProvider(a.records + b.records, domain, s.provider);
    ProxyIs(dns, resolver, domain, s);
    hide Ask, CnameOf, HasNoCname, Reaches, ReachesUnder, LeadsTo, LeadsToProvider, Ipv4s, Ipv6s, BehindProxy;
  }

  /** Without one, it is told the first thing that is wrong with its addresses or its code. */
  lemma AddressCodes(dns: Dns, resolver: string, domain: Name, s: Setup)
    requires Ask(dns, resolver, domain, TypeA).status != Failure && Ask(dns, resolver, domain, TypeAAAA).status != Failure
    requires HasNoCname(Ask(dns, resolver, domain, TypeA).records + Ask(dns, resolver, domain, TypeAAAA).records, domain)
    ensures var a, b := Ask(dns, resolver, domain, TypeA), Ask(dns, resolver, domain, TypeAAAA);
            var t := Ask(dns, resolver, ["_rdf-verify"] + domain, TypeTXT);
            Judged(dns, resolver, domain, s) ==
              if !(exists r | r in a.records :: r.A?) && !(exists r | r in b.records :: r.AAAA?) then Err(NoRecord)
              else if BehindProxy(a, b, s) then Err(BehindCdn)
              else if !((exists r | r in a.records :: r.A?) && forall r | r in a.records && r.A? :: s.ipv4 == Some(r.address)) then Err(AMismatch)
              else if !(forall r | r in b.records && r.AAAA? :: s.ipv6 == Some(r.address)) then Err(AaaaMismatch)
              else if t.status == Failure then Err(LookupFailed)
              else if !(exists r | r in t.records :: r.Txt? && r.owner == ["_rdf-verify"] + domain) then Err(TxtMissing)
              else if s.token == "" || Txt(["_rdf-verify"] + domain, s.token) !in t.records then Err(TxtWrong)
              else Ok(ByTxt)
  {
    var a, b := Ask(dns, resolver, domain, TypeA), Ask(dns, resolver, domain, TypeAAAA);
    NoCname(a.records + b.records, domain);
    ProxyIs(dns, resolver, domain, s);
    FirstAddressCode(dns, resolver, domain, s);
    FirstTxtCode(dns, resolver, domain, s);
    hide Ask, CnameOf, HasNoCname, Ipv4s, Ipv6s, Texts, BehindProxy, AddressProblem, TxtProblem, VerifyName;
  }

  lemma FirstAddressCode(dns: Dns, resolver: string, domain: Name, s: Setup)
    ensures var a, b := Ask(dns, resolver, domain, TypeA), Ask(dns, resolver, domain, TypeAAAA);
            AddressProblem(ViewOf(dns, resolver, domain), s) ==
              if !(exists r | r in a.records :: r.A?) && !(exists r | r in b.records :: r.AAAA?) then Some(NoRecord)
              else if BehindProxy(a, b, s) then Some(BehindCdn)
              else if !((exists r | r in a.records :: r.A?) && forall r | r in a.records && r.A? :: s.ipv4 == Some(r.address)) then Some(AMismatch)
              else if !(forall r | r in b.records && r.AAAA? :: s.ipv6 == Some(r.address)) then Some(AaaaMismatch)
              else None
  {
    var a, b := Ask(dns, resolver, domain, TypeA), Ask(dns, resolver, domain, TypeAAAA);
    var v := ViewOf(dns, resolver, domain);
    ProxyIs(dns, resolver, domain, s);
    assert v.v4 == Ipv4s(a.records) && v.v6 == Ipv6s(b.records);
    hide Ask, ViewOf, BehindProxy;
    Addresses(a.records, b.records, s);
  }

  lemma Addresses(a: seq<Record>, b: seq<Record>, s: Setup)
    ensures Ipv4s(a) == {} <==> !(exists r | r in a :: r.A?)
    ensures Ipv6s(b) == {} <==> !(exists r | r in b :: r.AAAA?)
    ensures s.ipv4.Some? && Ipv4s(a) == {s.ipv4.value} <==>
              (exists r | r in a :: r.A?) && forall r | r in a && r.A? :: s.ipv4 == Some(r.address)
    ensures Ipv6s(b) <= AllowedIpv6(s) <==> forall r | r in b && r.AAAA? :: s.ipv6 == Some(r.address)
  {
    forall r | r in a && r.A? ensures r.address in Ipv4s(a) {
    }
    forall r | r in b && r.AAAA? ensures r.address in Ipv6s(b) {
    }
  }

  lemma FirstTxtCode(dns: Dns, resolver: string, domain: Name, s: Setup)
    ensures var t := Ask(dns, resolver, ["_rdf-verify"] + domain, TypeTXT);
            TxtProblem(ViewOf(dns, resolver, domain), domain, s) ==
              if t.status == Failure then Some(LookupFailed)
              else if !(exists r | r in t.records :: r.Txt? && r.owner == ["_rdf-verify"] + domain) then Some(TxtMissing)
              else if s.token == "" || Txt(["_rdf-verify"] + domain, s.token) !in t.records then Some(TxtWrong)
              else None
  {
    var t := Ask(dns, resolver, ["_rdf-verify"] + domain, TypeTXT);
    var name := ["_rdf-verify"] + domain;
    assert ViewOf(dns, resolver, domain).txt == t && VerifyName(domain) == name;
    CodeExactly(dns, resolver, domain, s);
    forall r | r in t.records && r.Txt? && r.owner == name ensures r.text in Texts(t.records, name) {
    }
    hide Ask, ViewOf;
  }

  /** One resolver passes by CNAME, or by TXT, exactly when its answers say so. */
  lemma PassesExactly(dns: Dns, resolver: string, domain: Name, s: Setup)
    ensures Judged(dns, resolver, domain, s) == Ok(ByCname) <==> PassesByCname(dns, resolver, domain, s)
    ensures Judged(dns, resolver, domain, s) == Ok(ByTxt) <==> PassesByTxt(dns, resolver, domain, s)
  {
    var a, b := Ask(dns, resolver, domain, TypeA), Ask(dns, resolver, domain, TypeAAAA);
    var records := a.records + b.records;
    assert HasNoCname(records, domain) <==> HasNoCname(a.records, domain) && HasNoCname(b.records, domain);
    if a.status == Failure || b.status == Failure {
      assert Judged(dns, resolver, domain, s) == Err(LookupFailed);
    } else if HasNoCname(records, domain) {
      NoCname(records, domain);
      NoHops(records, domain);
      ReachesLeads(records, domain, s.target);
      AddressCodes(dns, resolver, domain, s);
    } else {
      CnameCodes(dns, resolver, domain, s);
    }
    hide Judged, CnameOf, HasNoCname, Hop, LeadsTo, LeadsToProvider, Ask;
  }

  lemma {:induction false} NoCname(records: seq<Record>, name: Name)
    ensures CnameOf(records, name).None? <==> HasNoCname(records, name)
    decreases |records|
  {
    if records != [] {
      var before, last := records[..|records| - 1], records[|records| - 1];
      NoCname(before, name);
      assert forall r :: r in records <==> r in before || r == last;
    }
  }

  lemma {:induction false} CnameIsLast(records: seq<Record>, name: Name, target: Name)
    ensures CnameOf(records, name) == Some(target) <==> PointsTo(records, name, target)
    decreases |records|
  {
    if records != [] {
      var n := |records| - 1;
      var before, r := records[..n], records[n];
      CnameIsLast(before, name, target);
      if r.CName? && r.owner == name {
        if r.target == target {
          assert records[n] == CName(name, target) && NoneAfter(records, name, n);
        }
      } else {
        forall i | 0 <= i < n
          ensures records[i] == CName(name, target) && NoneAfter(records, name, i)
                  <==> before[i] == CName(name, target) && NoneAfter(before, name, i)
        {
          NoneAfterLonger(records, name, i);
        }
        if PointsTo(before, name, target) {
          var i :| 0 <= i < n && before[i] == CName(name, target) && NoneAfter(before, name, i);
          assert records[i] == CName(name, target) && NoneAfter(records, name, i);
        }
        if PointsTo(records, name, target) {
          var i :| 0 <= i < |records| && records[i] == CName(name, target) && NoneAfter(records, name, i);
          assert i < n && before[i] == CName(name, target) && NoneAfter(before, name, i);
        }
      }
    }
  }

  lemma NoneAfterLonger(records: seq<Record>, name: Name, i: nat)
    requires i < |records| - 1
    requires !(records[|records| - 1].CName? && records[|records| - 1].owner == name)
    ensures NoneAfter(records, name, i) <==> NoneAfter(records[..|records| - 1], name, i)
  {
    var before := records[..|records| - 1];
    forall j | i < j < |before| ensures records[j] == before[j] {
    }
  }

  /** A chain of n CNAMEs is n hops. */
  lemma {:induction false} ChainHops(records: seq<Record>, chain: seq<Name>)
    requires chain != [] && Chained(records, chain)
    ensures Hop(records, chain[0], |chain| - 1) == Some(chain[|chain| - 1])
    decreases |chain|
  {
    hide PointsTo, CnameOf;
    var n := |chain| - 1;
    if n > 0 {
      assert PointsTo(records, chain[n - 1], chain[n]);
      assert Chained(records, chain[..n]);
      ChainHops(records, chain[..n]);
      CnameIsLast(records, chain[n - 1], chain[n]);
    }
  }

  lemma {:induction false} HopsChain(records: seq<Record>, name: Name, n: nat) returns (chain: seq<Name>)
    requires Hop(records, name, n).Some?
    ensures |chain| == n + 1 && chain[0] == name && Some(chain[n]) == Hop(records, name, n) && Chained(records, chain)
  {
    hide PointsTo, CnameOf;
    if n == 0 {
      return [name];
    }
    var before := HopsChain(records, name, n - 1);
    var last := Hop(records, name, n).value;
    CnameIsLast(records, before[n - 1], last);
    chain := before + [last];
    forall i | 0 < i < |chain| ensures PointsTo(records, chain[i - 1], chain[i]) {
      assert i < n ==> chain[i - 1] == before[i - 1] && chain[i] == before[i];
    }
  }

  lemma ReachesLeads(records: seq<Record>, name: Name, target: Name)
    ensures Reaches(records, name, target) <==> LeadsTo(records, name, target)
  {
    hide PointsTo, Hop;
    if Reaches(records, name, target) {
      var n :| 1 <= n <= MAX_HOPS && Hop(records, name, n) == Some(target);
      var chain := HopsChain(records, name, n);
      assert Chained(records, chain);
    }
    if LeadsTo(records, name, target) {
      var chain: seq<Name> :| 2 <= |chain| <= 11 && chain[0] == name && chain[|chain| - 1] == target && Chained(records, chain);
      ChainHops(records, chain);
      assert Hop(records, name, |chain| - 1) == Some(target);
    }
  }

  lemma NoHops(records: seq<Record>, name: Name)
    requires CnameOf(records, name).None?
    ensures forall n :: n >= 1 ==> Hop(records, name, n).None?
  {
    forall n | n >= 1 ensures Hop(records, name, n).None? {
      NoHop(records, name, n);
    }
  }

  lemma {:induction false} NoHop(records: seq<Record>, name: Name, n: nat)
    requires CnameOf(records, name).None? && n >= 1
    ensures Hop(records, name, n).None?
  {
    if n > 1 {
      NoHop(records, name, n - 1);
    }
  }

  // CAA

  function CaaSet(records: seq<Record>): seq<Record> {
    if records == [] then []
    else CaaSet(records[..|records| - 1]) + if records[|records| - 1].Caa? then [records[|records| - 1]] else []
  }

  /** Section 4.2 of RFC 8659: a set without `issue` properties restricts nobody. */
  predicate Permits(caa: seq<Record>) {
    (forall r | r in caa && r.Caa? :: r.tag != "issue") || exists r :: r in caa && r.Caa? && r.tag == "issue" && r.issuer == LETS_ENCRYPT
  }

  function SetAt(dns: Dns, resolver: string, name: Name): seq<Record> {
    CaaSet(Ask(dns, resolver, name, TypeCAA).records)
  }

  predicate Asked(dns: Dns, resolver: string, name: Name) {
    Ask(dns, resolver, name, TypeCAA).status != Failure
  }

  /** Section 3 of RFC 8659: the first non-empty set climbing from the domain, the top-level label included. */
  function RelevantSet(dns: Dns, resolver: string, domain: Name): seq<Record> {
    if domain == [] then []
    else if SetAt(dns, resolver, domain) != [] then SetAt(dns, resolver, domain)
    else RelevantSet(dns, resolver, domain[1..])
  }

  /** The climb of check_caa: it stops below the top-level label. */
  function CaaVerdict(dns: Dns, resolver: string, domain: Name): Option<Code> {
    if |domain| <= 1 then None
    else if !Asked(dns, resolver, domain) then Some(LookupFailed)
    else if SetAt(dns, resolver, domain) == [] then CaaVerdict(dns, resolver, domain[1..])
    else if Permits(SetAt(dns, resolver, domain)) then None
    else Some(CaaForbids)
  }

  /** Nothing is found below the i-th name of the climb. */
  predicate EmptyBelow(dns: Dns, resolver: string, domain: Name, i: nat)
    requires i <= |domain|
  {
    forall j | 0 <= j < i :: SetAt(dns, resolver, domain[j..]) == []
  }

  /** Every lookup that the climb makes succeeds. */
  predicate AllAsked(dns: Dns, resolver: string, domain: Name) {
    forall i | 0 <= i < |domain| - 1 && EmptyBelow(dns, resolver, domain, i) :: Asked(dns, resolver, domain[i..])
  }

  /** Nothing below the top-level label has a CAA set, and the one there forbids us. */
  predicate OnlyTheTopForbids(dns: Dns, resolver: string, domain: Name) {
    && domain != [] && !Permits(SetAt(dns, resolver, domain[|domain| - 1..]))
    && EmptyBelow(dns, resolver, domain, |domain| - 1)
  }

  /** The same questions seen from one label further up. */
  lemma ClimbOne(dns: Dns, resolver: string, domain: Name, i: nat)
    requires |domain| > 1 && 1 <= i <= |domain|
    ensures EmptyBelow(dns, resolver, domain, i) <==>
              SetAt(dns, resolver, domain) == [] && EmptyBelow(dns, resolver, domain[1..], i - 1)
    ensures domain[i..] == domain[1..][i - 1..]
  {
    var rest := domain[1..];
    assert domain[0..] == domain;
    if EmptyBelow(dns, resolver, domain, i) {
      forall j | 0 <= j < i - 1 ensures SetAt(dns, resolver, rest[j..]) == [] {
        assert rest[j..] == domain[j + 1..];
      }
      assert SetAt(dns, resolver, domain[0..]) == [];
    }
    if SetAt(dns, resolver, domain) == [] && EmptyBelow(dns, resolver, rest, i - 1) {
      forall j | 0 <= j < i ensures SetAt(dns, resolver, domain[j..]) == [] {
        assert j > 0 ==> domain[j..] == rest[j - 1..];
      }
    }
  }

  /** The lookups of the climb: the first name's, and if nothing is found there those further up. */
  lemma AskedFurtherUp(dns: Dns, resolver: string, domain: Name)
    requires |domain| > 1
    ensures AllAsked(dns, resolver, domain) <==>
              Asked(dns, resolver, domain) && (SetAt(dns, resolver, domain) == [] ==> AllAsked(dns, resolver, domain[1..]))
  {
    hide Asked, SetAt;
    var rest := domain[1..];
    assert domain[0..] == domain && EmptyBelow(dns, resolver, domain, 0);
    if AllAsked(dns, resolver, domain) && SetAt(dns, resolver, domain) == [] {
      forall i | 0 <= i < |rest| - 1 && EmptyBelow(dns, resolver, rest, i) ensures Asked(dns, resolver, rest[i..]) {
        ClimbOne(dns, resolver, domain, i + 1);
      }
    }
    if Asked(dns, resolver, domain) && (SetAt(dns, resolver, domain) == [] ==> AllAsked(dns, resolver, rest)) {
      forall i | 0 <= i < |domain| - 1 && EmptyBelow(dns, resolver, domain, i) ensures Asked(dns, resolver, domain[i..]) {
        if i > 0 {
          ClimbOne(dns, resolver, domain, i);
        }
      }
    }
  }

  /** The climb reports a failed lookup exactly when one that it makes fails. */
  lemma {:induction false} CaaLooksUp(dns: Dns, resolver: string, domain: Name)
    ensures CaaVerdict(dns, resolver, domain) == Some(LookupFailed) <==> !AllAsked(dns, resolver, domain)
    decreases |domain|
  {
    if |domain| > 1 {
      hide AllAsked, Asked, SetAt, Permits;
      AskedFurtherUp(dns, resolver, domain);
      CaaLooksUp(dns, resolver, domain[1..]);
    }
  }

  /** When its own lookups succeed, the climb agrees with the standard unless the only set there
      is belongs to the top-level label and forbids issuance: then it permits what the standard
      does not. */
  lemma {:induction false} CaaAgreesWithTheStandard(dns: Dns, resolver: string, domain: Name)
    requires AllAsked(dns, resolver, domain)
    ensures CaaVerdict(dns, resolver, domain) == None <==>
              Permits(RelevantSet(dns, resolver, domain)) || OnlyTheTopForbids(dns, resolver, domain)
    ensures OnlyTheTopForbids(dns, resolver, domain) ==> !Permits(RelevantSet(dns, resolver, domain))
    decreases |domain|
  {
    if |domain| == 1 {
      assert domain[0..] == domain && RelevantSet(dns, resolver, domain[1..]) == [];
    } else if |domain| > 1 {
      hide AllAsked, EmptyBelow, SetAt, Asked, Permits;
      AskedFurtherUp(dns, resolver, domain);
      ClimbOne(dns, resolver, domain, |domain| - 1);
      if SetAt(dns, resolver, domain) == [] {
        CaaAgreesWithTheStandard(dns, resolver, domain[1..]);
      }
    }
  }

  /** A set holds the CAA records of the answer, and no other. */
  lemma {:induction false} CaaSetHolds(records: seq<Record>, r: Record)
    ensures r in CaaSet(records) <==> r in records && r.Caa?
    decreases |records|
  {
    if records != [] {
      CaaSetHolds(records[..|records| - 1], r);
      assert r in records <==> r in records[..|records| - 1] || r == records[|records| - 1];
    }
  }

  /** Every lookup of the climb succeeds, and the standard permits issuance, or only the top-level label's set forbids it. */
  predicate CaaAllows(dns: Dns, resolver: string, domain: Name) {
    AllAsked(dns, resolver, domain) && (Permits(RelevantSet(dns, resolver, domain)) || OnlyTheTopForbids(dns, resolver, domain))
  }

  lemma CaaAllowsExactly(dns: Dns, resolver: string, domain: Name)
    ensures CaaVerdict(dns, resolver, domain).None? <==> CaaAllows(dns, resolver, domain)
  {
    CaaLooksUp(dns, resolver, domain);
    if AllAsked(dns, resolver, domain) {
      CaaAgreesWithTheStandard(dns, resolver, domain);
    }
  }

  // All resolvers

  predicate Unanimous(dns: Dns, resolvers: seq<string>, domain: Name, s: Setup, v: Verdict) {
    resolvers != [] && forall i | 0 <= i < |resolvers| :: Judged(dns, resolvers[i], domain, s) == v
  }

  /** Resolver i is the first one that sees a CAA problem. */
  predicate FirstCaaProblem(dns: Dns, resolvers: seq<string>, domain: Name, i: nat) {
    && i < |resolvers| && CaaVerdict(dns, resolvers[i], domain).Some?
    && forall j | 0 <= j < i :: CaaVerdict(dns, resolvers[j], domain).None?
  }

  /** The domain is pointed at us: every resolver says so by the same method, and none of them
      sees a CAA set that keeps the certificate authority away. */
  predicate Accepted(dns: Dns, resolvers: seq<string>, domain: Name, s: Setup, how: Method) {
    && Unanimous(dns, resolvers, domain, s, Ok(how))
    && forall i | 0 <= i < |resolvers| :: CaaVerdict(dns, resolvers[i], domain).None?
  }

  ghost predicate PassesBy(dns: Dns, resolver: string, domain: Name, s: Setup, how: Method) {
    if how == ByCname then PassesByCname(dns, resolver, domain, s) else PassesByTxt(dns, resolver, domain, s)
  }

  /** The answers of every resolver pass by this method, and its CAA sets permit issuance. */
  ghost predicate AllPass(dns: Dns, resolvers: seq<string>, domain: Name, s: Setup, how: Method) {
    resolvers != [] && forall i | 0 <= i < |resolvers| ::
      PassesBy(dns, resolvers[i], domain, s, how) && CaaAllows(dns, resolvers[i], domain)
  }

  lemma AcceptedExactly(dns: Dns, resolvers: seq<string>, domain: Name, s: Setup, how: Method)
    ensures Accepted(dns, resolvers, domain, s, how) <==> AllPass(dns, resolvers, domain, s, how)
  {
    hide Judged, CaaVerdict, CaaAllows, PassesByCname, PassesByTxt;
    forall i | 0 <= i < |resolvers|
      ensures Judged(dns, resolvers[i], domain, s) == Ok(how) <==> PassesBy(dns, resolvers[i], domain, s, how)
      ensures CaaVerdict(dns, resolvers[i], domain).None? <==> CaaAllows(dns, resolvers[i], domain)
    {
      PassesExactly(dns, resolvers[i], domain, s);
      CaaAllowsExactly(dns, resolvers[i], domain);
    }
  }
}
