/** The loops of the DNS check: the CNAME walk, the CAA climb and the vote of the resolvers. */
module DnsCheck {
  import opened Util
  import opened Dns

  /** The CNAME records by owner. */
  method CnameTable(records: seq<Record>) returns (cnames: map<Name, Name>)
    ensures forall n :: CnameOf(records, n) == if n in cnames then Some(cnames[n]) else None
  {
    cnames := map[];
    var i := 0;
    while i < |records|
      invariant 0 <= i <= |records|
      invariant forall n :: CnameOf(records[..i], n) == if n in cnames then Some(cnames[n]) else None
    {
      assert records[..i + 1][..i] == records[..i];
      if records[i].CName? {
        cnames := cnames[records[i].owner := records[i].target];
      }
      i := i + 1;
    }
    assert records[..i] == records;
  }

  predicate IsChain(chain: seq<Name>, records: seq<Record>, domain: Name) {
    forall i | 0 <= i < |chain| :: Hop(records, domain, i + 1) == Some(chain[i])
  }

  /** Follows at most ten CNAMEs; a cycle ends there too. */
  method Follow(records: seq<Record>, domain: Name) returns (chain: seq<Name>)
    ensures IsChain(chain, records, domain) && |chain| <= MAX_HOPS
    ensures |chain| < MAX_HOPS ==> Hop(records, domain, |chain| + 1).None?
  {
    var cnames := CnameTable(records);
    var name := domain;
    chain := [];
    while name in cnames && |chain| < MAX_HOPS
      invariant |chain| <= MAX_HOPS && IsChain(chain, records, domain)
      invariant Hop(records, domain, |chain|) == Some(name)
      decreases MAX_HOPS - |chain|
    {
      assert CnameOf(records, name) == Some(cnames[name]);
      name := cnames[name];
      chain := chain + [name];
    }
    assert |chain| < MAX_HOPS ==> CnameOf(records, name) == None;
  }

  /** Past the end of a chain there is nothing to reach. */
  lemma {:induction false} HopsEnd(records: seq<Record>, domain: Name, m: nat, n: nat)
    requires m <= n && Hop(records, domain, m).None?
    ensures Hop(records, domain, n).None?
    decreases n
  {
    if m < n {
      HopsEnd(records, domain, m, n - 1);
    }
  }

  lemma HopInChain(chain: seq<Name>, records: seq<Record>, domain: Name, n: nat)
    requires IsChain(chain, records, domain)
    requires |chain| < MAX_HOPS ==> Hop(records, domain, |chain| + 1).None?
    requires 1 <= n <= MAX_HOPS && Hop(records, domain, n).Some?
    ensures n <= |chain| && Hop(records, domain, n) == Some(chain[n - 1])
  {
    if n > |chain| {
      HopsEnd(records, domain, |chain| + 1, n);
    }
    assert Hop(records, domain, n - 1 + 1) == Some(chain[n - 1]);
  }

  lemma ChainIsReach(chain: seq<Name>, records: seq<Record>, domain: Name, target: Name)
    requires IsChain(chain, records, domain) && |chain| <= MAX_HOPS
    requires |chain| < MAX_HOPS ==> Hop(records, domain, |chain| + 1).None?
    ensures target in chain <==> Reaches(records, domain, target)
  {
    if target in chain {
      var i :| 0 <= i < |chain| && chain[i] == target;
      assert Hop(records, domain, i + 1) == Some(target);
    }
    if Reaches(records, domain, target) {
      var n :| 1 <= n <= MAX_HOPS && Hop(records, domain, n) == Some(target);
      HopInChain(chain, records, domain, n);
    }
  }

  lemma ChainIsReachUnder(chain: seq<Name>, records: seq<Record>, domain: Name, provider: Name)
    requires IsChain(chain, records, domain) && |chain| <= MAX_HOPS
    requires |chain| < MAX_HOPS ==> Hop(records, domain, |chain| + 1).None?
    ensures (exists n :: n in chain && Under(n, provider)) <==> ReachesUnder(records, domain, provider)
  {
    if n :| n in chain && Under(n, provider) {
      var i :| 0 <= i < |chain| && chain[i] == n;
      assert Hop(records, domain, i + 1) == Some(n);
    }
    if ReachesUnder(records, domain, provider) {
      var n :| 1 <= n <= MAX_HOPS && Hop(records, domain, n).Some? && Under(Hop(records, domain, n).value, provider);
      HopInChain(chain, records, domain, n);
      assert chain[n - 1] in chain;
    }
  }

  lemma ChainStarts(chain: seq<Name>, records: seq<Record>, domain: Name)
    requires IsChain(chain, records, domain)
    requires |chain| < MAX_HOPS ==> Hop(records, domain, |chain| + 1).None?
    ensures chain != [] <==> CnameOf(records, domain).Some?
  {
    assert Hop(records, domain, 0) == Some(domain);
    assert Hop(records, domain, 1) == CnameOf(records, domain);
    if chain != [] {
      assert Hop(records, domain, 0 + 1) == Some(chain[0]);
    }
  }

  /** `_check_one` */
  method CheckOne(dns: Dns, resolver: string, domain: Name, s: Setup) returns (verdict: Verdict)
    ensures verdict == Judged(dns, resolver, domain, s)
    ensures verdict == Ok(ByCname) <==> PassesByCname(dns, resolver, domain, s)
    ensures verdict == Ok(ByTxt) <==> PassesByTxt(dns, resolver, domain, s)
  {
    PassesExactly(dns, resolver, domain, s);
    hide PassesByCname, PassesByTxt;
    var a, b := Ask(dns, resolver, domain, TypeA), Ask(dns, resolver, domain, TypeAAAA);
    if a.status == Failure || b.status == Failure {
      return Err(LookupFailed);
    }
    var v := ViewOf(dns, resolver, domain);
    var chain := Follow(a.records + b.records, domain);
    ChainStarts(chain, v.records, domain);
    ChainIsReach(chain, v.records, domain, s.target);
    ChainIsReachUnder(chain, v.records, domain, s.provider);
    if chain != [] {
      if s.target in chain {
        return Ok(ByCname);
      }
      if exists n :: n in chain && Under(n, s.provider) {
        return Err(OtherAccount);
      }
      return Err(if (v.v4 + v.v6) * s.cdn != {} then BehindCdn else CnameElsewhere);
    }
    var addresses := AddressProblem(v, s);
    if addresses.Some? {
      return Err(addresses.value);
    }
    var txt := TxtProblem(v, domain, s);
    verdict := if txt.Some? then Err(txt.value) else Ok(ByTxt);
  }

  /** The issuers named by a set's `issue` properties. */
  method Issuers(caa: seq<Record>) returns (issuers: seq<string>)
    requires forall r | r in caa :: r.Caa?
    ensures (issuers == [] || LETS_ENCRYPT in issuers) <==> Permits(caa)
  {
    issuers := [];
    var i := 0;
    while i < |caa|
      invariant 0 <= i <= |caa|
      invariant issuers == [] <==> forall j | 0 <= j < i :: caa[j].Caa? && caa[j].tag != "issue"
      invariant LETS_ENCRYPT in issuers <==> exists j :: 0 <= j < i && caa[j].Caa? && caa[j].tag == "issue" && caa[j].issuer == LETS_ENCRYPT
    {
      assert caa[i] in caa;
      if caa[i].tag == "issue" {
        issuers := issuers + [caa[i].issuer];
      }
      i := i + 1;
    }
    if Permits(caa) && issuers != [] {
      var j :| 0 <= j < |caa| && caa[j].tag == "issue";
      assert caa[j] in caa;
      var r :| r in caa && r.Caa? && r.tag == "issue" && r.issuer == LETS_ENCRYPT;
    }
  }

  /** `check_caa`: None when issuance is allowed. */
  method CheckCaa(dns: Dns, resolver: string, domain: Name) returns (problem: Option<Code>)
    ensures problem == CaaVerdict(dns, resolver, domain)
    ensures problem.None? <==> CaaAllows(dns, resolver, domain)
  {
    CaaAllowsExactly(dns, resolver, domain);
    hide CaaAllows;
    var i := 0;
    assert domain[0..] == domain;
    while i < |domain| - 1
      invariant 0 <= i <= |domain| && (domain != [] ==> i < |domain|)
      invariant CaaVerdict(dns, resolver, domain) == CaaVerdict(dns, resolver, domain[i..])
    {
      var name := domain[i..];
      var a := Ask(dns, resolver, name, TypeCAA);
      if a.status == Failure {
        return Some(LookupFailed);
      }
      var caa := CaaSet(a.records);
      if caa != [] {
        forall r | r in caa ensures r.Caa? {
          CaaSetHolds(a.records, r);
        }
        var issuers := Issuers(caa);
        return if issuers == [] || LETS_ENCRYPT in issuers then None else Some(CaaForbids);
      }
      assert name[1..] == domain[i + 1..];
      i := i + 1;
    }
    problem := None;
  }

  lemma OneElement<T>(s: set<T>, x: T)
    requires x in s
    ensures |s| == 1 <==> forall y | y in s :: y == x
  {
    if forall y | y in s :: y == x {
      assert s == {x};
    }
    if |s| == 1 {
      assert |s - {x}| == 0;
    }
  }

  function CodeOf(v: Verdict): Option<Code> {
    if v.Err? then Some(v.error) else None
  }

  /** What the resolvers agree on; None if they do not. */
  method Vote(results: seq<Verdict>) returns (common: Option<Verdict>)
    ensures common.Some? ==> results != [] && forall i | 0 <= i < |results| :: results[i] == common.value
    ensures common.None? ==> results == [] || exists i | 0 <= i < |results| :: results[i] != results[0]
  {
    if forall r | r in results :: r.Ok? {
      var methods := set r | r in results && r.Ok? :: r.value;
      if |methods| != 1 {
        if results != [] {
          assert results[0] in results && results[0].value in methods;
          OneElement(methods, results[0].value);
          var m :| m in methods && m != results[0].value;
          var r :| r in results && r.Ok? && r.value == m;
          var i :| 0 <= i < |results| && results[i] == r;
          assert results[i] != results[0];
        }
        return None;
      }
      assert results != [];
      assert results[0] in results && results[0].value in methods;
      OneElement(methods, results[0].value);
      forall i | 0 <= i < |results| ensures results[i] == results[0] {
        assert results[i] in results && results[i].value in methods;
      }
      return Some(results[0]);
    }
    var codes := set r | r in results :: CodeOf(r);
    var x :| x in results && !x.Ok?;
    assert results[0] in results && CodeOf(results[0]) in codes;
    OneElement(codes, CodeOf(results[0]));
    if |codes| == 1 {
      assert CodeOf(x) in codes;
      forall i | 0 <= i < |results| ensures results[i] == results[0] {
        assert results[i] in results && CodeOf(results[i]) in codes;
      }
      return Some(results[0]);
    }
    var c :| c in codes && c != CodeOf(results[0]);
    var r :| r in results && CodeOf(r) == c;
    var i :| 0 <= i < |results| && results[i] == r;
    assert results[i] != results[0];
    common := None;
  }

  /** `check_domain`: accepted exactly if every resolver's answers pass; otherwise the code that all resolvers
      share, `Disagree` if they do not, or the first resolver's CAA problem. */
  method CheckDomain(dns: Dns, resolvers: seq<string>, domain: Name, s: Setup) returns (verdict: Verdict)
    ensures forall how :: verdict == Ok(how) <==> AllPass(dns, resolvers, domain, s, how)
    ensures (forall v :: !Unanimous(dns, resolvers, domain, s, v)) ==> verdict == Err(Disagree)
    ensures forall code :: Unanimous(dns, resolvers, domain, s, Err(code)) ==> verdict == Err(code)
    ensures forall how, i: nat :: Unanimous(dns, resolvers, domain, s, Ok(how)) && FirstCaaProblem(dns, resolvers, domain, i) ==>
              verdict == Err(CaaVerdict(dns, resolvers[i], domain).value)
  {
    hide Judged, CaaVerdict, AllPass;
    forall how ensures Accepted(dns, resolvers, domain, s, how) <==> AllPass(dns, resolvers, domain, s, how) {
      AcceptedExactly(dns, resolvers, domain, s, how);
    }
    var results: seq<Verdict> := [];
    var i := 0;
    while i < |resolvers|
      invariant 0 <= i <= |resolvers| && |results| == i
      invariant forall j | 0 <= j < i :: results[j] == Judged(dns, resolvers[j], domain, s)
    {
      var one := CheckOne(dns, resolvers[i], domain, s);
      results := results + [one];
      i := i + 1;
    }
    var common := Vote(results);
    if common.None? {
      return Err(Disagree);
    }
    verdict := common.value;
    assert Unanimous(dns, resolvers, domain, s, verdict);
    assert forall v | Unanimous(dns, resolvers, domain, s, v) :: Judged(dns, resolvers[0], domain, s) == v;
    if verdict.Err? {
      return;
    }
    i := 0;
    while i < |resolvers|
      invariant 0 <= i <= |resolvers|
      invariant forall j | 0 <= j < i :: CaaVerdict(dns, resolvers[j], domain).None?
    {
      var problem := CheckCaa(dns, resolvers[i], domain);
      if problem.Some? {
        return Err(problem.value);
      }
      i := i + 1;
    }
  }
}
