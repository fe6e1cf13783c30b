/** The textual form of a task's CPU request. */
module CpuRequest {
  import opened Bytes
  import opened NumberParser

  datatype CpuRequest = Compact(n: U32) | ForceCompact(n: U32) | Scatter(n: U32) | All

  /** `tag(word)` */
  function PTag(word: string, s: string): (r: Parse<()>)
    ensures r.Ok? <==> word <= s
    ensures r.Ok? ==> s == word + r.rest
  {
    if word <= s then Ok((), s[|word|..]) else Fail
  }

  predicate IsSpace(c: char) { c == ' ' || c == '\t' || c == '\r' || c == '\n' }

  /** `multispace0` */
  function SkipSpaces(s: string): (r: string)
    ensures |r| <= |s|
  {
    if s != [] && IsSpace(s[0]) then SkipSpaces(s[1..]) else s
  }

  datatype Policy = PolicyCompact | PolicyForce | PolicyScatter

  /** `alt((tag("compact!"), tag("compact"), tag("scatter")))`: the first alternative that matches. */
  function PPolicy(s: string): Parse<Policy>
  {
    if PTag("compact!", s).Ok? then Ok(PolicyForce, PTag("compact!", s).rest)
    else if PTag("compact", s).Ok? then Ok(PolicyCompact, PTag("compact", s).rest)
    else if PTag("scatter", s).Ok? then Ok(PolicyScatter, PTag("scatter", s).rest)
    else Fail
  }

  /** `opt(preceded(multispace1, policy))` */
  function POptPolicy(s: string): (r: Parse<Option<Policy>>)
    ensures r.Ok?
  {
    if s != [] && IsSpace(s[0]) && PPolicy(SkipSpaces(s)).Ok?
    then Ok(Some(PPolicy(SkipSpaces(s)).value), PPolicy(SkipSpaces(s)).rest)
    else Ok(None, s)
  }

  /** `p_cpu_request` */
  function PCpuRequest(s: string): Parse<CpuRequest>
  {
    if PTag("all", s).Ok? then Ok(All, PTag("all", s).rest)
    else
      var n := PU32(s);
      if n.Fail? then Fail
      else
        var p := POptPolicy(n.rest);
        if n.value == 0 then Fail
        else Ok(match p.value
                case None => Compact(n.value)
                case Some(PolicyCompact) => Compact(n.value)
                case Some(PolicyForce) => ForceCompact(n.value)
                case Some(PolicyScatter) => Scatter(n.value), p.rest)
  }

  /** `parse_cpu_request` */
  function ParseCpuRequest(s: string): Option<CpuRequest>
  {
    var p := PCpuRequest(s);
    if p.Ok? && p.rest == [] then Some(p.value) else None
  }

  /** `cpu_request_to_string` */
  function PrintCpuRequest(r: CpuRequest): string
  {
    match r
    case Compact(n) => Decimal(n) + " compact"
    case ForceCompact(n) => Decimal(n) + " compact!"
    case Scatter(n) => Decimal(n) + " scatter"
    case All => "all"
  }

  function PolicyName(r: CpuRequest): string
    requires !r.All?
  {
    match r
    case Compact(_) => "compact"
    case ForceCompact(_) => "compact!"
    case Scatter(_) => "scatter"
  }

  lemma PolicyParses(r: CpuRequest)
    requires !r.All?
    ensures PPolicy(PolicyName(r)) ==
            Ok(if r.Compact? then PolicyCompact else if r.ForceCompact? then PolicyForce else PolicyScatter, [])
  {
    var s := PolicyName(r);
    assert !("compact!" <= "compact");
    assert "scatter"[0] == 's' && "compact"[0] == 'c' && "compact!"[0] == 'c';
  }

  lemma PolicyAfterSpace(r: CpuRequest)
    requires !r.All?
    ensures POptPolicy(" " + PolicyName(r)) == Ok(Some(PPolicy(PolicyName(r)).value), [])
  {
    hide PPolicy;
    PolicyParses(r);
    var s := " " + PolicyName(r);
    assert s[1..] == PolicyName(r);
    assert SkipSpaces(s) == SkipSpaces(PolicyName(r)) == PolicyName(r);
  }

  /** A printed request parses back to itself if and only if it does not ask for zero cpus. */
  lemma RequestRoundTrip(r: CpuRequest)
    ensures ParseCpuRequest(PrintCpuRequest(r)) == Some(r) <==> r.All? || r.n != 0
    ensures !r.All? && r.n == 0 ==> ParseCpuRequest(PrintCpuRequest(r)) == None
  {
    hide Decimal, PU32, POptPolicy, PPolicy;
    if !r.All? {
      var rest := " " + PolicyName(r);
      var s := Decimal(r.n) + rest;
      assert PrintCpuRequest(r) == s;
      NumberRoundTrip(r.n, rest);
      assert IsDigit(s[0]) && "all"[0] == 'a';
      assert !("all" <= s);
      PolicyAfterSpace(r);
      PolicyParses(r);
    }
  }

  /** A bare number means the compact policy. */
  lemma BareNumberIsCompact(n: U32)
    ensures ParseCpuRequest(Decimal(n)) == if n == 0 then None else Some(Compact(n))
  {
    hide Decimal, PU32;
    var s := Decimal(n);
    NumberRoundTrip(n, []);
    assert s + [] == s;
    assert IsDigit(s[0]) && "all"[0] == 'a';
    assert !("all" <= s);
  }

  lemma {:induction false} SpacesAreSkipped(spaces: string, s: string)
    requires (forall k :: 0 <= k < |spaces| ==> IsSpace(spaces[k])) && (s != [] ==> !IsSpace(s[0]))
    ensures SkipSpaces(spaces + s) == s
  {
    if spaces == [] {
      assert spaces + s == s;
    } else {
      assert (spaces + s)[1..] == spaces[1..] + s;
      SpacesAreSkipped(spaces[1..], s);
    }
  }

  /** The accepted texts: any white space between a positive number and the name of its policy. */
  lemma RequestTexts(n: U32, spaces: string)
    requires n > 0 && spaces != []
    requires forall k :: 0 <= k < |spaces| ==> spaces[k] == ' ' || spaces[k] == '\t' || spaces[k] == '\r' || spaces[k] == '\n'
    ensures ParseCpuRequest("all") == Some(All)
    ensures ParseCpuRequest(Decimal(n) + (spaces + "compact")) == Some(Compact(n))
    ensures ParseCpuRequest(Decimal(n) + (spaces + "compact!")) == Some(ForceCompact(n))
    ensures ParseCpuRequest(Decimal(n) + (spaces + "scatter")) == Some(Scatter(n))
  {
    hide Decimal, ParseCpuRequest;
    assert ParseCpuRequest("all") == Some(All) by { AllParses(); }
    RequestText(Compact(n), spaces);
    RequestText(ForceCompact(n), spaces);
    RequestText(Scatter(n), spaces);
  }

  lemma AllParses()
    ensures ParseCpuRequest("all") == Some(All)
  {
  }

  lemma RequestText(r: CpuRequest, spaces: string)
    requires !r.All? && r.n > 0 && spaces != [] && forall k :: 0 <= k < |spaces| ==> IsSpace(spaces[k])
    ensures ParseCpuRequest(Decimal(r.n) + (spaces + PolicyName(r))) == Some(r)
  {
    hide Decimal, PU32, PPolicy, SkipSpaces, IsSpace;
    var rest := spaces + PolicyName(r);
    var s := Decimal(r.n) + rest;
    assert NumberEnds(rest) by { SpaceIsNoDigit(spaces[0]); }
    NumberRoundTrip(r.n, rest);
    assert IsDigit(s[0]) && "all"[0] == 'a';
    assert !("all" <= s);
    NameIsNoSpace(r);
    SpacesAreSkipped(spaces, PolicyName(r));
    PolicyParses(r);
  }

  lemma SpaceIsNoDigit(c: char)
    requires IsSpace(c)
    ensures !InNumber(c)
  {
  }

  lemma NameIsNoSpace(r: CpuRequest)
    requires !r.All?
    ensures PolicyName(r) != [] && !IsSpace(PolicyName(r)[0])
  {
  }

  /** A printed request: the number, a blank and the name of the policy. */
  lemma RequestPrints()
    ensures PrintCpuRequest(All) == "all"
    ensures PrintCpuRequest(Compact(3)) == "3 compact"
    ensures PrintCpuRequest(ForceCompact(3)) == "3 compact!"
    ensures PrintCpuRequest(Scatter(3)) == "3 scatter"
  {
    DecimalDigits(0, 3);
    assert "0123456789"[3] == '3';
    assert "3" + " compact" == "3 compact" && "3" + " compact!" == "3 compact!" && "3" + " scatter" == "3 scatter";
  }
}
