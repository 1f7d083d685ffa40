/** Whether a file that parses still parses once formatted: a site header that crosses a line break can lose
    the words before it, if one of them has to be quoted (parse.go:233-295, format.go:35-186). */
module FormattedFiles {
  import opened Ast
  import opened Quoting
  import opened Addresses
  import opened Grammar
  import opened FormattedTrees

  // ----- Headers -----

  /** The first `k` symbols are words and an opening brace follows. */
  predicate Header(ms: seq<Mark>, k: nat) {
    k < |ms| && ms[k].sym == Open && forall i :: 0 <= i < k ==> ms[i].sym.Word?
  }

  function AddressesOf(ms: seq<Mark>, k: nat): seq<string>
    requires k <= |ms| && forall i :: 0 <= i < k ==> ms[i].sym.Word?
  {
    if k == 0 then [] else SplitAddress(ms[0].sym.text) + AddressesOf(ms[1..], k - 1)
  }

  /** Formatting quotes the word. */
  predicate Quotes(s: Sym) {
    s.Word? && !s.quoted && NeedsQuoting(s.text)
  }

  ghost predicate Unbroken(ms: seq<Mark>, k: nat)
    requires k < |ms|
  {
    forall j :: 0 <= j <= k ==> ms[j].gap == Tight
  }

  /** No line break behind a word that formatting quotes. */
  ghost predicate Holds(ms: seq<Mark>, k: nat)
    requires k < |ms|
  {
    forall i, j :: 0 <= i < j <= k && Quotes(ms[i].sym) ==> ms[j].gap == Tight
  }

  /** The first line of a header, `n` words, reads as a statement once it is cut off: a directive, or a
      matcher with a name and a type. */
  predicate CutOff(ms: seq<Mark>, n: nat)
    requires 0 < n <= |ms|
  {
    StartsMatcher(Requoted(ms[0].sym)) ==> |ms[0].sym.text| > 1 && n >= 2 && TypeOk(Requoted(ms[1].sym))
  }

  /** The header of a site outlives formatting: it holds and has an address; or its first line is cut off as
      a statement, and what is left outlives formatting. */
  ghost predicate Outlives(ms: seq<Mark>, k: nat)
    requires Header(ms, k)
    decreases k
  {
    if Holds(ms, k) && !StartsMatcher(Requoted(ms[0].sym)) then AddressesOf(ms, k) != []
    else
      var n := 1 + Words(ms[1..]);
      0 < k && n <= k && !OpensHere(ms[n..]) && CutOff(ms, n) && Outlives(ms[n..], k - n)
  }

  /** The leading words. */
  function Lead(ms: seq<Mark>): (k: nat)
    ensures k <= |ms| && (forall i :: 0 <= i < k ==> ms[i].sym.Word?) && (k < |ms| ==> !ms[k].sym.Word?)
  {
    if ms == [] || !ms[0].sym.Word? then 0 else 1 + Lead(ms[1..])
  }

  /** Every site header of the text outlives formatting. */
  ghost predicate AllOutlive(ms: seq<Mark>)
    decreases |ms|
  {
    if ms == [] then true
    else if StartsSite(ms) then
      var r, k := SiteFrom(Fresh(ms), []), Lead(ms);
      r.Ok? ==> Header(ms, k) && Outlives(ms, k) && AllOutlive(r.rest)
    else
      var r := Statement(ms, 0);
      r.Ok? ==> AllOutlive(r.rest)
  }

  /** The same of a whole file, past its global options. */
  ghost predicate FileOutlives(ms: seq<Mark>) {
    if ms != [] && ms[0].sym == Open then
      var r := Block(ms[1..], 0);
      r.Ok? ==> AllOutlive(r.rest)
    else AllOutlive(ms)
  }

  lemma CommaQuoted(s: Sym)
    ensures CommaAddress(Requoted(s)) == (CommaAddress(s) && !Quotes(s))
  {
    hide NeedsQuoting, IsAddress;
  }

  lemma TailFacts(ms: seq<Mark>, k: nat)
    requires 0 < k && Header(ms, k)
    ensures Header(ms[1..], k - 1)
    ensures Unbroken(ms, k) <==> ms[0].gap == Tight && Unbroken(ms[1..], k - 1)
    ensures Holds(ms, k) <==> Holds(ms[1..], k - 1) && (Quotes(ms[0].sym) ==> Unbroken(ms[1..], k - 1))
  {
    hide Quotes;
    var t := ms[1..];
    assert forall i :: 0 <= i < k ==> t[i] == ms[i + 1];
    assert forall j :: 1 <= j <= k ==> ms[j] == t[j - 1];
  }

  /** A line break in a header needs commas before it. */
  lemma {:induction false} BreakNeedsCommas(ms: seq<Mark>, k: nat, commas: bool)
    requires HeaderAhead(ms, commas) && Header(ms, k)
    ensures commas || Unbroken(ms, k)
  {
    hide CommaAddress;
    if k > 0 {
      TailFacts(ms, k);
      BreakNeedsCommas(ms[1..], k - 1, commas && CommaAddress(ms[0].sym));
    }
  }

  /** Whether a header is still one: it may break where it did, unless a word before is quoted. */
  lemma {:induction false} HeaderHolds(ms: seq<Mark>, k: nat, commas: bool, now: bool)
    requires HeaderAhead(ms, commas) && Header(ms, k) && (now ==> commas)
    ensures HeaderAhead(Spread(ms, false), now) <==> (now || Unbroken(ms, k)) && Holds(ms, k)
  {
    hide NeedsQuoting, CommaAddress, Quotes, Unbroken, Holds;
    SpreadStep(ms, false);
    if k > 0 {
      var c := commas && CommaAddress(ms[0].sym);
      CommaQuoted(ms[0].sym);
      HeaderHolds(ms[1..], k - 1, c, now && CommaAddress(Requoted(ms[0].sym)));
      BreakNeedsCommas(ms[1..], k - 1, c);
      TailFacts(ms, k);
    } else {
      OneMark(ms);
    }
  }

  lemma OneMark(ms: seq<Mark>)
    requires ms != []
    ensures Unbroken(ms, 0) <==> ms[0].gap == Tight
    ensures Holds(ms, 0)
  {
  }

  /** In any text, a formatted header has no break behind a word that was quoted. */
  lemma {:induction false} AheadHolds(ms: seq<Mark>, k: nat, commas: bool)
    requires Header(ms, k) && HeaderAhead(Spread(ms, false), commas)
    ensures Holds(ms, k) && (commas || Unbroken(ms, k))
  {
    hide NeedsQuoting, CommaAddress, Quotes, Unbroken, Holds;
    SpreadStep(ms, false);
    if k > 0 {
      CommaQuoted(ms[0].sym);
      AheadHolds(ms[1..], k - 1, commas && CommaAddress(Requoted(ms[0].sym)));
      TailFacts(ms, k);
    } else {
      OneMark(ms);
    }
  }

  lemma FreshSpread(ms: seq<Mark>, b: bool)
    ensures Fresh(Spread(ms, b)) == Spread(Fresh(ms), false)
  {
    hide NeedsQuoting;
    if ms != [] {
      SpreadStep(ms, b);
      SpreadStep(Fresh(ms), false);
    }
  }

  /** No new run of addresses without commas appears. */
  lemma {:induction false} WrapKept(ms: seq<Mark>, broken: bool, hosts: nat)
    requires WrapAhead(Spread(ms, false), broken, hosts)
    ensures WrapAhead(ms, broken, hosts)
  {
    hide NeedsQuoting, IsAddress, IsClearHost;
    SpreadStep(ms, false);
    if ms[0].sym.Word? {
      WrapKept(ms[1..], broken || ms[0].gap != Tight, if IsClearHost(ms[0].sym.text) then hosts + 1 else hosts);
    }
  }

  lemma BadWrapKept(ms: seq<Mark>, b: bool)
    requires ms != [] && BadWrap(Spread(ms, b))
    ensures BadWrap(ms)
  {
    hide NeedsQuoting, WrapAhead, IsClearHost;
    SpreadStep(ms, b);
    var t := [ms[0].(gap := Tight)] + ms[1..];
    SpreadStep(t, false);
    assert Spread(t, false) == [Spread(ms, b)[0].(gap := Tight)] + Spread(ms, b)[1..];
    WrapKept(t, false, 0);
  }

  // ----- Parsing a header -----

  /** An opening brace ahead is one at the end of a run of words. */
  lemma {:induction false} HeaderLength(ms: seq<Mark>, commas: bool) returns (k: nat)
    requires HeaderAhead(ms, commas)
    ensures Header(ms, k)
  {
    hide CommaAddress;
    if ms[0].sym.Word? {
      var n := HeaderLength(ms[1..], commas && CommaAddress(ms[0].sym));
      k := n + 1;
    } else {
      k := 0;
    }
  }

  /** Parsing a site collects the header's addresses and its block. */
  lemma {:induction false} SiteParsed(ms: seq<Mark>, k: nat, addresses: seq<string>)
    requires Header(ms, k) && forall i :: 0 <= i <= k ==> ms[i].gap != Semi
    ensures var all := addresses + AddressesOf(ms, k);
            SiteFrom(ms, addresses) ==
            if all == [] then Err(NoAddress) else SiteOver(all, Block(ms[k + 1..], 0))
  {
    hide Block, SplitAddress, SiteOver;
    SiteStep(ms, addresses);
    if k == 0 {
      assert addresses + [] == addresses;
    } else {
      var more := SplitAddress(ms[0].sym.text);
      SiteParsed(ms[1..], k - 1, addresses + more);
      assert ms[1..][k - 1 + 1..] == ms[k + 1..];
      assert addresses + more + AddressesOf(ms[1..], k - 1) == addresses + (more + AddressesOf(ms[1..], k - 1));
    }
  }

  function SiteOver(addresses: seq<string>, b: Parsed<seq<Node>>): Parsed<Site> {
    if b.Ok? then Ok(Site(addresses, b.value), b.rest) else Err(b.error)
  }

  lemma SiteStep(ms: seq<Mark>, addresses: seq<string>)
    requires ms != [] && ms[0].gap != Semi && ms[0].sym != Close
    ensures SiteFrom(ms, addresses) ==
            if ms[0].sym.Word? then SiteFrom(ms[1..], addresses + SplitAddress(ms[0].sym.text))
            else if addresses == [] then Err(NoAddress)
            else SiteOver(addresses, Block(ms[1..], 0))
  {
    hide Block, SplitAddress;
  }

  lemma {:induction false} NoSemiAhead(ms: seq<Mark>, commas: bool, k: nat)
    requires HeaderAhead(ms, commas) && Header(ms, k)
    ensures forall i :: 0 <= i <= k ==> ms[i].gap != Semi
  {
    hide CommaAddress;
    if k > 0 {
      NoSemiAhead(ms[1..], commas && CommaAddress(ms[0].sym), k - 1);
      assert forall i :: 1 <= i <= k ==> ms[i] == ms[1..][i - 1];
    }
  }

  /** Words directly behind each other up to a brace are a header. */
  lemma {:induction false} TightHeader(ms: seq<Mark>, k: nat, commas: bool)
    requires Header(ms, k) && forall i :: 0 <= i <= k ==> ms[i].gap == Tight
    ensures HeaderAhead(ms, commas)
  {
    hide CommaAddress;
    if k > 0 {
      TightHeader(ms[1..], k - 1, commas && CommaAddress(ms[0].sym));
    }
  }

  lemma AddressesTail(ms: seq<Mark>, j: nat, k: nat)
    requires j <= k && Header(ms, k)
    ensures AddressesOf(ms[j..], k - j) != [] ==> AddressesOf(ms, k) != []
  {
    hide SplitAddress;
    if j > 0 {
      AddressesTail(ms[1..], j - 1, k - 1);
      assert ms[1..][j - 1..] == ms[j..];
    }
  }

  // ----- Errors in headers -----

  predicate InBlock(e: Error) {
    e !in {NoSiteBlock, NoAddress, AddressWrap, StrayClose}
  }

  lemma {:induction false} StatementErrors(ms: seq<Mark>, depth: nat)
    requires ms != [] && Statement(ms, depth).Err?
    ensures InBlock(Statement(ms, depth).error)
    decreases |ms|, 0
  {
    hide Block, EndsHere, TypeOk, ArgsOf;
    if ms[0].sym.Word? && !StartsMatcher(ms[0].sym) {
      var rest := ms[1 + Words(ms[1..])..];
      if OpensHere(rest) && Block(rest[1..], depth).Err? {
        BlockErrors(rest[1..], depth);
      }
    }
  }

  lemma {:induction false} BlockErrors(ms: seq<Mark>, depth: nat)
    requires Block(ms, depth).Err?
    ensures InBlock(Block(ms, depth).error)
    decreases |ms|, 2
  {
    hide Body;
    if depth < MAX_BLOCK_DEPTH {
      BodyErrors(ms, depth + 1);
    }
  }

  lemma {:induction false} BodyErrors(ms: seq<Mark>, depth: nat)
    requires Body(ms, depth).Err?
    ensures InBlock(Body(ms, depth).error)
    decreases |ms|, 1
  {
    hide Statement;
    if ms != [] && ms[0].sym != Close {
      var r := Statement(ms, depth);
      if r.Err? {
        StatementErrors(ms, depth);
      } else {
        BodyErrors(r.rest, depth);
      }
    }
  }

  /** The lookahead has seen the brace: whatever is wrong with a file, it is never a header that runs into
      its end, a '}' or a ';'. */
  lemma {:induction false} HeadersOpen(ms: seq<Mark>, f: File)
    ensures Constructs(ms, f) != Err(NoSiteBlock)
    decreases |ms|
  {
    hide StartsSite, BadWrap, Statement, SiteFrom;
    if ms != [] && ms[0].sym != Close {
      if StartsSite(ms) {
        HeaderOpens(ms);
        var r := SiteFrom(Fresh(ms), []);
        if r.Ok? {
          HeadersOpen(r.rest, f.(sites := f.sites + [r.value]));
        }
      } else {
        var r := Statement(ms, 0);
        if r.Ok? {
          HeadersOpen(r.rest, f.(body := f.body + [r.value]));
        } else {
          StatementErrors(ms, 0);
        }
      }
    }
  }

  lemma HeaderOpens(ms: seq<Mark>)
    requires ms != [] && StartsSite(ms)
    ensures SiteFrom(Fresh(ms), []) != Err(NoSiteBlock)
  {
    hide HeaderAhead, Block, SiteFrom;
    var m := Fresh(ms);
    var k := HeaderLength(m, true);
    NoSemiAhead(m, true, k);
    SiteParsed(m, k, []);
    if Block(m[k + 1..], 0).Err? {
      BlockErrors(m[k + 1..], 0);
    }
  }

  lemma FileHeadersOpen(ms: seq<Mark>)
    ensures FileFrom(ms) != Err(NoSiteBlock)
  {
    hide Block, Constructs;
    if ms != [] && ms[0].sym == Open {
      var r := Block(ms[1..], 0);
      if r.Err? {
        BlockErrors(ms[1..], 0);
      } else {
        HeadersOpen(r.rest, File(true, r.value, [], []));
      }
    } else {
      HeadersOpen(ms, File(false, [], [], []));
    }
  }

  // ----- Running into a block -----

  /** However the parser divides the words in front of a brace among statements, it gets to that brace as
      the end of a site header that has an address, and reads its block. The header is all that formatting
      puts at risk. */
  lemma {:induction false} BlockReached(ms: seq<Mark>, k: nat, f: File) returns (g: File, m: nat)
    requires Header(ms, k) && Constructs(ms, f).Ok?
    ensures AddressesOf(ms, k) != [] && Block(ms[k + 1..], 0).Ok?
    ensures Constructs(Block(ms[k + 1..], 0).rest, g).Ok?
    ensures m <= k && Header(ms[m..], k - m) && AddressesOf(ms[m..], k - m) != [] && !StartsMatcher(ms[m].sym)
    ensures AllOutlive(ms) <==> Outlives(ms[m..], k - m) && AllOutlive(Block(ms[k + 1..], 0).rest)
    decreases k
  {
    hide Block, StartsSite, BadWrap, Statement, SiteFrom, Constructs, Outlives, AllOutlive, AddressesOf, StartsMatcher;
    Divided(ms, f);
    if StartsSite(ms) {
      SiteReached(ms, k);
      g := f.(sites := f.sites + [SiteFrom(Fresh(ms), []).value]);
      m := 0;
      assert ms[0..] == ms;
      OneSite(ms, k);
    } else {
      var n := StatementReached(ms, k);
      var r := Statement(ms, 0);
      OneStatement(ms);
      var rest := ms[n..];
      g, m := BlockReached(rest, k - n, f.(body := f.body + [r.value]));
      assert rest[k - n + 1..] == ms[k + 1..] && rest[m..] == ms[n + m..];
      AddressesTail(ms, n, k);
      m := n + m;
    }
  }

  lemma {:induction false} LeadIs(ms: seq<Mark>, k: nat)
    requires Header(ms, k)
    ensures Lead(ms) == k
  {
    if k > 0 {
      LeadIs(ms[1..], k - 1);
    }
  }

  /** One construct of a file that parses. */
  lemma Divided(ms: seq<Mark>, f: File)
    requires ms != [] && Constructs(ms, f).Ok?
    ensures ms[0].sym != Close
    ensures StartsSite(ms) ==>
              var r := SiteFrom(Fresh(ms), []);
              r.Ok? && Constructs(r.rest, f.(sites := f.sites + [r.value])).Ok?
    ensures !StartsSite(ms) ==>
              var r := Statement(ms, 0);
              !BadWrap(ms) && r.Ok? && Constructs(r.rest, f.(body := f.body + [r.value])).Ok?
  {
    hide StartsSite, BadWrap, Statement, SiteFrom;
  }

  lemma SiteReached(ms: seq<Mark>, k: nat)
    requires Header(ms, k) && StartsSite(ms) && SiteFrom(Fresh(ms), []).Ok?
    ensures AddressesOf(ms, k) != [] && Block(ms[k + 1..], 0).Ok?
    ensures SiteFrom(Fresh(ms), []).rest == Block(ms[k + 1..], 0).rest
    ensures !StartsMatcher(ms[0].sym)
  {
    hide Block, HeaderAhead, SiteFrom;
    var f := Fresh(ms);
    NoSemiAhead(f, true, k);
    SiteParsed(f, k, []);
    assert f[k + 1..] == ms[k + 1..];
    FreshAddresses(ms, k);
    assert [] + AddressesOf(f, k) == AddressesOf(f, k);
  }

  lemma FreshAddresses(ms: seq<Mark>, k: nat)
    requires Header(ms, k)
    ensures Header(Fresh(ms), k) && AddressesOf(Fresh(ms), k) == AddressesOf(ms, k)
  {
    hide SplitAddress;
    assert Fresh(ms)[1..] == ms[1..];
  }

  /** A statement in front of the brace stops short of it. */
  lemma StatementReached(ms: seq<Mark>, k: nat) returns (n: nat)
    requires Header(ms, k) && !StartsSite(ms) && Statement(ms, 0).Ok?
    ensures 0 < n <= k && Statement(ms, 0).rest == ms[n..] && Header(ms[n..], k - n)
  {
    hide Block, EndsHere, TypeOk, ArgsOf, StartsSite, StartsMatcher, Words;
    n := 1 + Words(ms[1..]);
    assert forall i :: 1 <= i < n ==> ms[i] == ms[1..][i - 1];
    assert n <= k;
    if !StartsMatcher(ms[0].sym) && OpensHere(ms[n..]) {
      FreshTight(ms, k, n);
      assert false;
    }
  }

  lemma FreshTight(ms: seq<Mark>, k: nat, n: nat)
    requires Header(ms, k) && n == 1 + Words(ms[1..]) <= k && !StartsMatcher(ms[0].sym) && OpensHere(ms[n..])
    ensures StartsSite(ms)
  {
    hide CommaAddress;
    assert n == k;
    var t := ms[1..];
    assert forall i :: 0 <= i < k - 1 ==> t[i].gap == Tight;
    assert t[k - 1] == ms[k];
    TightHeader(t, k - 1, CommaAddress(ms[0].sym));
    assert Fresh(ms)[1..] == t;
  }

  // ----- The whole file -----

  /** A header of the formatted text, merged or not. */
  lemma MergedSite(ms: seq<Mark>, b: bool, k: nat)
    requires Header(ms, k) && Block(ms[k + 1..], 0).Ok?
    ensures var r := SiteFrom(Fresh(Spread(ms, b)), []);
            if AddressesOf(ms, k) == [] then r.Err? else r.Ok? && r.rest == Spread(Block(ms[k + 1..], 0).rest, true)
  {
    hide Block, SplitAddress, NeedsQuoting;
    FreshSpread(ms, b);
    FreshAddresses(ms, k);
    var f := Fresh(ms);
    assert f[k + 1..] == ms[k + 1..];
    SpreadHeader(f, k);
    SiteParsed(Spread(f, false), k, []);
    assert [] + AddressesOf(f, k) == AddressesOf(f, k);
    SpreadBlock(ms[k + 1..], true, 0);
  }

  lemma {:induction false} SpreadHeader(ms: seq<Mark>, k: nat)
    requires Header(ms, k)
    ensures var s := Spread(ms, false);
            && Header(s, k) && (forall i :: 0 <= i <= k ==> s[i].gap != Semi)
            && AddressesOf(s, k) == AddressesOf(ms, k) && s[k + 1..] == Spread(ms[k + 1..], true)
  {
    hide NeedsQuoting, SplitAddress;
    var s := Spread(ms, false);
    SpreadStep(ms, false);
    if k > 0 {
      SpreadHeader(ms[1..], k - 1);
      assert s[1..][k..] == s[k + 1..] && ms[1..][k..] == ms[k + 1..];
      assert forall i :: 1 <= i <= k ==> s[i] == s[1..][i - 1];
    }
  }

  // ----- A header once formatted -----

  lemma StartsIff(ms: seq<Mark>, b: bool, k: nat)
    requires Header(ms, k) && HeaderAhead(Fresh(ms), true)
    ensures StartsSite(Spread(ms, b)) <==> Holds(ms, k) && !StartsMatcher(Requoted(ms[0].sym))
  {
    assert k < |ms|;
    hide HeaderAhead, NeedsQuoting, Quotes, Spread, Holds, Header, Unbroken, Requoted;
    FreshSpread(ms, b);
    FreshAddresses(ms, k);
    HeaderHolds(Fresh(ms), k, true, true);
    FreshHolds(ms, k);
    SpreadStep(ms, b);
  }

  lemma FreshHolds(ms: seq<Mark>, k: nat)
    requires k < |ms|
    ensures Holds(Fresh(ms), k) == Holds(ms, k)
  {
    hide Quotes;
    assert forall i :: 0 <= i <= k ==> Fresh(ms)[i].sym == ms[i].sym && (i > 0 ==> Fresh(ms)[i] == ms[i]);
  }

  /** Behind a quoted word there is no run of bare addresses. */
  lemma {:induction false} QuotedEndsWrap(ms: seq<Mark>, i: nat, broken: bool, hosts: nat)
    requires i < |ms| && ms[i].sym.Word? && ms[i].sym.quoted && forall j :: 0 <= j < i ==> ms[j].sym.Word?
    ensures !WrapAhead(ms, broken, hosts)
  {
    hide IsAddress, IsClearHost;
    if i > 0 {
      QuotedEndsWrap(ms[1..], i - 1, broken || ms[0].gap != Tight, if IsClearHost(ms[0].sym.text) then hosts + 1 else hosts);
    }
  }

  lemma NoBadWrap(ms: seq<Mark>, b: bool, k: nat)
    requires Header(ms, k) && (!Holds(ms, k) || StartsMatcher(Requoted(ms[0].sym)))
    ensures !BadWrap(Spread(ms, b))
  {
    hide NeedsQuoting, WrapAhead, IsClearHost, Spread;
    var s := Spread(ms, b);
    SpreadSyms(ms, b);
    if !StartsMatcher(Requoted(ms[0].sym)) {
      var i, j :| 0 <= i < j <= k && Quotes(ms[i].sym) && ms[j].gap != Tight;
      QuotedAhead(s, k, i);
    }
  }

  lemma QuotedAhead(s: seq<Mark>, k: nat, i: nat)
    requires i < k < |s| && (forall x :: 0 <= x < k ==> s[x].sym.Word?) && s[i].sym.quoted
    ensures !BadWrap(s)
  {
    hide WrapAhead, IsClearHost;
    var t := [s[0].(gap := Tight)] + s[1..];
    assert forall x :: 0 <= x < |s| ==> t[x].sym == s[x].sym;
    QuotedEndsWrap(t, i, false, 0);
  }

  /** The first line of a header, read as a statement. */
  lemma LineRead(ms: seq<Mark>, b: bool, k: nat)
    requires 0 < k && Header(ms, k)
    ensures var s, n := Spread(ms, b), 1 + Words(ms[1..]);
            && n <= k
            && (OpensHere(ms[n..]) && StartsMatcher(Requoted(ms[0].sym)) ==> Statement(s, 0).Err?)
            && (!OpensHere(ms[n..]) ==>
                  if CutOff(ms, n) then Statement(s, 0).Ok? && Statement(s, 0).rest == Spread(ms[n..], false)
                  else Statement(s, 0).Err?)
  {
    hide NeedsQuoting, ArgsOf, RequotedArgs, Block, Words, Spread, ContainsPlaceholder;
    var n := 1 + Words(ms[1..]);
    assert n <= k by {
      assert forall i :: 1 <= i < n ==> ms[i] == ms[1..][i - 1];
    }
    SpreadTail(ms, b);
    SpreadEnds(ms[n..], false);
    if !OpensHere(ms[n..]) {
      assert ms[n].gap != Tight by {
        assert n == k ==> ms[n].sym == Open;
        assert n < k ==> ms[n] == ms[1..][n - 1];
      }
    }
  }

  lemma {:induction false} AheadTail(ms: seq<Mark>, k: nat, n: nat, commas: bool)
    requires Header(ms, k) && HeaderAhead(ms, commas) && n <= k
    ensures HeaderAhead(Fresh(ms[n..]), true) && Header(ms[n..], k - n)
  {
    hide CommaAddress;
    if n == 0 {
      assert ms[0..] == ms;
      MoreCommas(Fresh(ms), ms, commas);
    } else {
      AheadTail(ms[1..], k - 1, n - 1, commas && CommaAddress(ms[0].sym));
      assert ms[1..][n - 1..] == ms[n..];
    }
  }

  lemma {:induction false} MoreCommas(f: seq<Mark>, ms: seq<Mark>, commas: bool)
    requires HeaderAhead(ms, commas) && f == Fresh(ms)
    ensures HeaderAhead(f, true)
  {
    hide CommaAddress;
    if ms[0].sym.Word? {
      assert f[1..] == ms[1..];
      Looser(ms[1..], commas && CommaAddress(ms[0].sym), CommaAddress(ms[0].sym));
    }
  }

  lemma {:induction false} Looser(ms: seq<Mark>, commas: bool, more: bool)
    requires HeaderAhead(ms, commas) && (commas ==> more)
    ensures HeaderAhead(ms, more)
  {
    hide CommaAddress;
    if ms[0].sym.Word? {
      Looser(ms[1..], commas && CommaAddress(ms[0].sym), more && CommaAddress(ms[0].sym));
    }
  }

  lemma ConstructsStep(s: seq<Mark>, g: File)
    requires s != [] && s[0].sym != Close
    ensures StartsSite(s) ==>
              var r := SiteFrom(Fresh(s), []);
              if r.Ok? then Constructs(s, g) == Constructs(r.rest, g.(sites := g.sites + [r.value])) else Constructs(s, g).Err?
    ensures !StartsSite(s) && !BadWrap(s) ==>
              var r := Statement(s, 0);
              if r.Ok? then Constructs(s, g) == Constructs(r.rest, g.(body := g.body + [r.value])) else Constructs(s, g).Err?
  {
    hide StartsSite, BadWrap, Statement, SiteFrom;
  }

  lemma NothingLeft(b: bool, g: File)
    ensures Constructs(Spread([], b), g).Ok? && AllOutlive([])
  {
  }

  /** A brace alone is a header of no words. */
  lemma SomeWord(ms: seq<Mark>, k: nat)
    requires Header(ms, k) && (!Holds(ms, k) || StartsMatcher(Requoted(ms[0].sym)))
    ensures 0 < k
  {
  }

  lemma WholeLine(ms: seq<Mark>, k: nat, n: nat)
    requires Header(ms, k) && 0 < k && n == 1 + Words(ms[1..]) <= k && OpensHere(ms[n..])
    ensures Holds(ms, k)
  {
    assert n == k;
    assert forall j :: 1 <= j < n ==> ms[j] == ms[1..][j - 1];
  }

  lemma RestAhead(ms: seq<Mark>, k: nat, n: nat)
    requires Header(ms, k) && HeaderAhead(Fresh(ms), true) && 0 < n <= k
    ensures HeaderAhead(Fresh(ms[n..]), true) && Header(ms[n..], k - n)
  {
    hide HeaderAhead;
    var f := Fresh(ms);
    FreshAddresses(ms, k);
    AheadTail(f, k, n, true);
    assert f[n..] == ms[n..];
  }

  lemma StartsHeader(ms: seq<Mark>) returns (k: nat)
    requires ms != [] && StartsSite(ms)
    ensures Header(ms, k) && HeaderAhead(Fresh(ms), true)
  {
    hide HeaderAhead;
    k := HeaderLength(Fresh(ms), true);
    assert forall i :: 0 <= i < |ms| ==> Fresh(ms)[i].sym == ms[i].sym;
  }

  lemma OneSite(ms: seq<Mark>, k: nat)
    requires Header(ms, k) && StartsSite(ms) && SiteFrom(Fresh(ms), []).Ok?
    ensures Block(ms[k + 1..], 0).Ok?
    ensures AllOutlive(ms) <==> Outlives(ms, k) && AllOutlive(Block(ms[k + 1..], 0).rest)
  {
    hide Block, StartsSite, SiteFrom, Outlives;
    SiteReached(ms, k);
    LeadIs(ms, k);
  }

  lemma OneStatement(ms: seq<Mark>)
    requires ms != [] && !StartsSite(ms) && Statement(ms, 0).Ok?
    ensures AllOutlive(ms) <==> AllOutlive(Statement(ms, 0).rest)
  {
    hide StartsSite, Statement;
  }

  /** The last part of a header that formatting makes, in the source a header of its own, outlives it. */
  lemma TailHolds(ms: seq<Mark>, b: bool, k: nat, m: nat)
    requires Header(ms, k) && StartsSite(Spread(ms, b)) && m <= k
    requires Header(ms[m..], k - m) && AddressesOf(ms[m..], k - m) != [] && !StartsMatcher(ms[m].sym)
    ensures Outlives(ms[m..], k - m)
  {
    assert k < |ms|;
    hide HeaderAhead, NeedsQuoting, SplitAddress, Quotes, Spread, Header, Holds, AddressesOf, Words;
    FreshSpread(ms, b);
    FreshAddresses(ms, k);
    AheadHolds(Fresh(ms), k, true);
    HoldsFrom(ms, k, m);
  }

  lemma HoldsFrom(ms: seq<Mark>, k: nat, m: nat)
    requires m <= k < |ms| && Holds(Fresh(ms), k)
    ensures Holds(ms[m..], k - m)
  {
    hide Quotes;
    var t := ms[m..];
    assert forall i :: 0 <= i <= k - m ==> t[i] == ms[m + i];
    assert forall i :: 0 <= i <= k ==> Fresh(ms)[i].sym == ms[i].sym && (i > 0 ==> Fresh(ms)[i] == ms[i]);
  }

  /** A header, or what is left of one, and all that follows. */
  lemma {:induction false} HeaderIff(ms: seq<Mark>, b: bool, k: nat, f: File, g: File)
    requires Header(ms, k) && HeaderAhead(Fresh(ms), true)
    requires Block(ms[k + 1..], 0).Ok? && Constructs(Block(ms[k + 1..], 0).rest, f).Ok?
    ensures Constructs(Spread(ms, b), g).Ok? <==> Outlives(ms, k) && AllOutlive(Block(ms[k + 1..], 0).rest)
    decreases |ms|, 0
  {
    hide Block, StartsSite, BadWrap, Statement, SiteFrom, Spread, Holds, Constructs, AllOutlive, HeaderAhead, CutOff,
         OpensHere, StartsMatcher, NeedsQuoting, AddressesOf;
    var s, rest := Spread(ms, b), Block(ms[k + 1..], 0).rest;
    SpreadFront(ms, b);
    ConstructsStep(s, g);
    StartsIff(ms, b, k);
    if StartsSite(s) {
      MergedSite(ms, b, k);
      if AddressesOf(ms, k) != [] {
        ConstructsIff(rest, true, f, g.(sites := g.sites + [SiteFrom(Fresh(s), []).value]));
      }
    } else {
      NoBadWrap(ms, b, k);
      SomeWord(ms, k);
      LineRead(ms, b, k);
      var n := 1 + Words(ms[1..]);
      if OpensHere(ms[n..]) {
        WholeLine(ms, k, n);
      } else if CutOff(ms, n) {
        RestAhead(ms, k, n);
        assert ms[n..][k - n + 1..] == ms[k + 1..];
        HeaderIff(ms[n..], false, k - n, f, g.(body := g.body + [Statement(s, 0).value]));
      }
    }
  }

  /** Sites and statements that parse still parse once formatted, merged or not, exactly if every header
      outlives it. */
  lemma {:induction false} ConstructsIff(ms: seq<Mark>, b: bool, f: File, g: File)
    requires Constructs(ms, f).Ok?
    ensures Constructs(Spread(ms, b), g).Ok? <==> AllOutlive(ms)
    decreases |ms|, 1
  {
    hide Block, StartsSite, BadWrap, Statement, SiteFrom, Spread, Header, Outlives, Constructs, AllOutlive;
    var s := Spread(ms, b);
    if ms == [] {
      NothingLeft(b, g);
    } else {
      SpreadFront(ms, b);
      Divided(ms, f);
      ConstructsStep(s, g);
      if StartsSite(ms) {
        var k := StartsHeader(ms);
        var f', m := BlockReached(ms, k, f);
        OneSite(ms, k);
        HeaderIff(ms, b, k, f', g);
      } else if StartsSite(s) {
        var k := SpreadStarts(ms, b);
        var f', m := BlockReached(ms, k, f);
        MergedSite(ms, b, k);
        TailHolds(ms, b, k, m);
        ConstructsIff(Block(ms[k + 1..], 0).rest, true, f', g.(sites := g.sites + [SiteFrom(Fresh(s), []).value]));
      } else {
        if BadWrap(s) {
          BadWrapKept(ms, b);
        }
        SpreadStatement(ms, b, 0);
        var r := Statement(ms, 0);
        OneStatement(ms);
        ConstructsIff(r.rest, EndsInBlock(r.value), f.(body := f.body + [r.value]),
                      g.(body := g.body + [RequotedNode(r.value)]));
      }
    }
  }

  /** A header of the formatted text stands over the same symbols of the source. */
  lemma SpreadStarts(ms: seq<Mark>, b: bool) returns (k: nat)
    requires ms != [] && StartsSite(Spread(ms, b))
    ensures k < |ms| && Header(ms, k)
  {
    hide HeaderAhead, NeedsQuoting;
    FreshSpread(ms, b);
    k := HeaderLength(Spread(Fresh(ms), false), true);
    SpreadSyms(Fresh(ms), false);
    assert forall i :: 0 <= i < |ms| ==> Fresh(ms)[i].sym == ms[i].sym;
  }

  lemma {:induction false} SpreadSyms(ms: seq<Mark>, b: bool)
    ensures forall i :: 0 <= i < |ms| ==> Spread(ms, b)[i].sym == Requoted(ms[i].sym)
  {
    hide NeedsQuoting;
    if ms != [] {
      SpreadStep(ms, b);
      SpreadSyms(ms[1..], !ms[0].sym.Word?);
      var s := Spread(ms, b);
      assert forall i :: 1 <= i < |ms| ==> s[i] == s[1..][i - 1] && ms[i] == ms[1..][i - 1];
    }
  }

  /** A file that parses still parses once formatted exactly if every site header outlives it. */
  lemma FileKeptIff(ms: seq<Mark>)
    requires FileFrom(ms).Ok?
    ensures FileFrom(Spread(ms, false)).Ok? <==> FileOutlives(ms)
  {
    hide Block, Constructs, Spread, AllOutlive;
    if ms != [] {
      SpreadFront(ms, false);
      if ms[0].sym == Open {
        SpreadBlock(ms[1..], true, 0);
        SpreadStep(ms, false);
        var r := Block(ms[1..], 0);
        ConstructsIff(r.rest, true, File(true, r.value, [], []), File(true, RequotedNodes(r.value), [], []));
        return;
      }
    }
    ConstructsIff(ms, false, File(false, [], [], []), File(false, [], [], []));
  }

  // ----- What formatting can change at the top level -----

  /** "u;v { }" */
  function Split(u: string, v: string): seq<Mark> {
    [Mark(Line, Word(u, false)), Mark(Semi, Word(v, false)), Mark(Tight, Open), Mark(Tight, Close)]
  }

  /** The same with a line break for the ';', as formatted. */
  function Joined(u: string, v: string): seq<Mark> {
    [Mark(Line, Word(u, false)), Mark(Line, Word(v, false)), Mark(Tight, Open), Mark(Line, Close)]
  }

  lemma Slices(ms: seq<Mark>)
    requires |ms| == 4
    ensures ms[1..][1..] == ms[2..] && ms[2..][1..] == ms[3..] && ms[3..][1..] == []
    ensures ms[0].gap == Line ==> Fresh(ms) == ms
    ensures ms[2..][..0] == []
  {
  }

  lemma SplitSpreads(u: string, v: string)
    requires !NeedsQuoting(u) && !NeedsQuoting(v)
    ensures Spread(Split(u, v), false) == Joined(u, v)
  {
    hide NeedsQuoting;
    var m := Split(u, v);
    Slices(m);
    assert Spread(m[3..], true) == [Mark(Line, Close)];
    assert Spread(m[2..], false) == [Mark(Tight, Open), Mark(Line, Close)];
    assert Spread(m[1..], false) == [Mark(Line, Word(v, false)), Mark(Tight, Open), Mark(Line, Close)];
  }

  /** A header whose words are all in place, and its empty block. */
  lemma EmptySite(ms: seq<Mark>, k: nat, f: File)
    requires Header(ms, k) && k + 2 == |ms| && ms[k + 1].sym == Close && StartsSite(ms) && AddressesOf(ms, k) != []
    ensures Constructs(ms, f) == Ok(f.(sites := f.sites + [Site(AddressesOf(ms, k), [])]), [])
  {
    hide HeaderAhead, SplitAddress;
    var m := Fresh(ms);
    NoSemiAhead(m, true, k);
    FreshAddresses(ms, k);
    SiteParsed(m, k, []);
    assert [] + AddressesOf(m, k) == AddressesOf(m, k);
    assert m[k + 1..] == [ms[k + 1].(gap := m[k + 1].gap)];
    assert m[k + 1..][1..] == [];
    assert Block(m[k + 1..], 0) == Ok([], []);
  }

  /** A statement that is one address with a comma, and a site after a ';': formatted, they are one
      site with both addresses. */
  lemma SemicolonMerges(u: string, v: string)
    requires CommaAddress(Word(u, false)) && !IsMatcherRef(u) && !IsClearHost(u) && !NeedsQuoting(u)
    requires SplitAddress(v) != [] && !IsMatcherRef(v) && !NeedsQuoting(v)
    ensures FileFrom(Split(u, v)) == Ok(File(false, [], [Site(SplitAddress(v), [])], [Directive(u, [], false, [])]), [])
    ensures FileFrom(Spread(Split(u, v), false)) == Ok(File(false, [], [Site(SplitAddress(u) + SplitAddress(v), [])], []), [])
  {
    hide NeedsQuoting, IsAddress, IsClearHost, SplitAddress;
    SplitSpreads(u, v);
    SplitParses(u, v);
    JoinedParses(u, v);
  }

  lemma SplitParses(u: string, v: string)
    requires CommaAddress(Word(u, false)) && !IsMatcherRef(u) && !IsClearHost(u)
    requires SplitAddress(v) != [] && !IsMatcherRef(v)
    ensures FileFrom(Split(u, v)) == Ok(File(false, [], [Site(SplitAddress(v), [])], [Directive(u, [], false, [])]), [])
  {
    hide IsAddress, IsClearHost, SplitAddress, CommaAddress;
    var m, f := Split(u, v), File(false, [], [], []);
    Slices(m);
    assert !HeaderAhead(m[1..], CommaAddress(Word(u, false)));
    assert !StartsSite(m) && !BadWrap(m);
    LoneStatement(m);
    var n := Statement(m, 0);
    TightSite(m[1..], v, f.(body := f.body + [n.value]));
    assert [] + [n.value] == [n.value] && [] + [Site(SplitAddress(v), [])] == [Site(SplitAddress(v), [])];
    assert Constructs(m, f) == Constructs(m[1..], f.(body := f.body + [n.value]));
  }

  /** A statement of one word. */
  lemma LoneStatement(ms: seq<Mark>)
    requires |ms| >= 2 && ms[0].sym.Word? && !StartsMatcher(ms[0].sym) && ms[1].gap != Tight
    ensures Statement(ms, 0) == Ok(Directive(ms[0].sym.text, [], false, []), ms[1..])
  {
    assert Words(ms[1..]) == 0 && EndsHere(ms[1..]) && !OpensHere(ms[1..]);
    assert ms[1..1] == [] && ArgsOf(ms[1..1]) == [];
  }

  lemma TightSite(m: seq<Mark>, v: string, f: File)
    requires |m| == 3 && m[0].sym == Word(v, false) && m[1] == Mark(Tight, Open) && m[2].sym == Close
    requires SplitAddress(v) != [] && !IsMatcherRef(v)
    ensures Constructs(m, f) == Ok(f.(sites := f.sites + [Site(SplitAddress(v), [])]), [])
  {
    hide CommaAddress, SplitAddress, Constructs;
    assert Fresh(m)[1..] == m[1..] && HeaderAhead(m[1..], CommaAddress(m[0].sym));
    assert AddressesOf(m[1..], 0) == [] && SplitAddress(v) + [] == SplitAddress(v);
    EmptySite(m, 1, f);
  }

  lemma JoinedParses(u: string, v: string)
    requires CommaAddress(Word(u, false)) && !IsMatcherRef(u) && SplitAddress(v) != []
    ensures FileFrom(Joined(u, v)) == Ok(File(false, [], [Site(SplitAddress(u) + SplitAddress(v), [])], []), [])
  {
    hide CommaAddress, SplitAddress, Constructs;
    var m, f := Joined(u, v), File(false, [], [], []);
    Slices(m);
    assert HeaderAhead(m[2..], CommaAddress(m[1].sym));
    assert HeaderAhead(m[1..], true);
    assert AddressesOf(m[2..], 0) == [] && SplitAddress(v) + [] == SplitAddress(v);
    assert AddressesOf(m[1..], 1) == SplitAddress(v);
    assert AddressesOf(m, 2) == SplitAddress(u) + SplitAddress(v);
    EmptySite(m, 2, f);
    assert [] + [Site(AddressesOf(m, 2), [])] == [Site(AddressesOf(m, 2), [])];
  }
}
