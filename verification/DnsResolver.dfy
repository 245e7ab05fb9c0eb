/** Following CNAME records to a host with addresses (internal/shared/dns/resolver.go:49-123,
    section 3.6.2 of RFC 1034).

    The lookups and the normalisation of names are parameters: what follows holds for any
    functions of their argument, that is, whenever a name answers the same within one run. */
module DnsResolver {
  import opened Uniques

  datatype Option<T> = None | Some(value: T)

  /** One address as the resolver returns it: without an IP, IPv4, or IPv6. */
  datatype Address = Nil | V4(text: string) | V6(text: string)

  datatype Resolution = Resolution(hostChain: seq<string>, ipv4: seq<string>, ipv6: seq<string>)

  datatype Outcome =
    | Resolved(resolution: Resolution)
    | EmptyHost
    | Loop(at: string)
    | EmptyCanonical(of: string)
    | LookupFailed(of: string)
    | NoRecords(of: string)
    | TooDeep

  /** What one name answers to the CNAME lookup. A failed lookup and a name that is its own
      canonical name both end the chain. */
  datatype Answer = Hop(next: string) | Broken | Terminal

  datatype Names = Names(
    normalize: string -> string,
    cname: string -> Option<string>,
    ips: string -> Option<seq<Address>>) {

    function Ask(h: string): Answer {
      match cname(h)
      case None => Terminal
      case Some(c) =>
        if normalize(c) == "" then Broken
        else if normalize(c) != h then Hop(normalize(c))
        else Terminal
    }

    /** The k-th name of the chain from `h`; a chain that has ended stays where it is. */
    function Orbit(h: string, k: nat): string {
      if k == 0 then h
      else
        var p := Orbit(h, k - 1);
        if Ask(p).Hop? then Ask(p).next else p
    }

    /** The first k names all lead on. */
    ghost predicate Leads(h: string, k: nat) {
      forall j :: 0 <= j < k ==> Ask(Orbit(h, j)).Hop?
    }

    ghost predicate Distinct(h: string, k: nat) {
      forall i, j :: 0 <= i < j < k ==> Orbit(h, i) != Orbit(h, j)
    }

    /** The chain comes back at position k to a name it has already passed. */
    ghost predicate Returns(h: string, k: nat) {
      Leads(h, k) && exists i :: 0 <= i < k && Orbit(h, i) == Orbit(h, k)
    }

    /** The chain ends at position k with this answer. */
    ghost predicate Ends(h: string, k: nat, a: Answer) {
      Leads(h, k) && Ask(Orbit(h, k)) == a && !a.Hop?
    }

    function Chain(h: string, k: nat): (s: seq<string>)
      ensures |s| == k && forall j :: 0 <= j < k ==> s[j] == Orbit(h, j)
    {
      if k == 0 then [] else Chain(h, k - 1) + [Orbit(h, k - 1)]
    }

    // ---------------------------------------------------------------------
    // Facts about chains
    // ---------------------------------------------------------------------

    lemma {:induction false} OrbitShift(h: string, i: nat, j: nat, t: nat)
      requires Orbit(h, i) == Orbit(h, j)
      ensures Orbit(h, i + t) == Orbit(h, j + t)
    {
      if t > 0 { OrbitShift(h, i, j, t - 1); }
    }

    /** A chain that ends never repeated a name on the way: a repeated name would lead on for
        ever. This is where it matters that a name answers the same every time. */
    lemma EndedChainIsDistinct(h: string, k: nat, a: Answer)
      requires Ends(h, k, a)
      ensures Distinct(h, k + 1)
    {
      if i, j :| 0 <= i < j < k + 1 && Orbit(h, i) == Orbit(h, j) {
        OrbitShift(h, i, j, k - j);
        assert false;
      }
    }

    /** The end of a chain is unique. */
    lemma EndIsUnique(h: string, k: nat, a: Answer, l: nat, b: Answer)
      requires Ends(h, k, a) && Ends(h, l, b)
      ensures k == l && a == b
    {
      assert k < l ==> Ask(Orbit(h, k)).Hop?;
      assert l < k ==> Ask(Orbit(h, l)).Hop?;
    }

    /** A chain that returns never ends. */
    lemma {:induction false} ReturningLeadsForever(h: string, k: nat, n: nat)
      requires Returns(h, k)
      ensures Leads(h, n)
      decreases n
    {
      if n > 0 {
        ReturningLeadsForever(h, k, n - 1);
        var i :| 0 <= i < k && Orbit(h, i) == Orbit(h, k);
        if n - 1 >= k {
          OrbitShift(h, i, k, n - 1 - k);
          assert Ask(Orbit(h, i + (n - 1 - k))).Hop?;
        }
      }
    }
  }

  // ---------------------------------------------------------------------
  // Addresses
  // ---------------------------------------------------------------------

  /** The text of an address, if it is of the wanted family. */
  function Picked(a: Address, v4: bool): seq<string> {
    if (v4 && a.V4?) || (!v4 && a.V6?) then [a.text] else []
  }

  function Texts(addrs: seq<Address>, v4: bool): seq<string> {
    if addrs == [] then [] else Picked(addrs[0], v4) + Texts(addrs[1..], v4)
  }

  predicate AllNil(addrs: seq<Address>) {
    Texts(addrs, true) == [] && Texts(addrs, false) == []
  }

  lemma {:induction false} TextsSnoc(addrs: seq<Address>, a: Address, v4: bool)
    ensures Texts(addrs + [a], v4) == Texts(addrs, v4) + Picked(a, v4)
  {
    hide Picked;
    if addrs == [] {
      assert [a][1..] == [];
    } else {
      assert (addrs + [a])[1..] == addrs[1..] + [a];
      TextsSnoc(addrs[1..], a, v4);
    }
  }

  method AppendUnique(list: seq<string>, value: string, ghost from: seq<string>) returns (r: seq<string>)
    requires list == Unique(from)
    ensures r == Unique(from + [value])
  {
    assert (from + [value])[..|from|] == from;
    if value in list {
      return list;
    }
    return list + [value];
  }

  // ---------------------------------------------------------------------
  // What an outcome means
  // ---------------------------------------------------------------------

  /** The hops made before giving up: none for a depth that is not positive. */
  function Depth(maxDepth: int): nat {
    if maxDepth > 0 then maxDepth else 0
  }

  /** What each outcome says about the chain that starts at the normalised host. */
  ghost predicate Explains(names: Names, maxDepth: int, host: string, r: Outcome) {
    var start := names.normalize(host);
    match r
    case EmptyHost => start == ""
    case Loop(at) =>
      && start != ""
      && exists k: nat :: k < maxDepth && names.Returns(start, k) && names.Distinct(start, k) && at == names.Orbit(start, k)
    case EmptyCanonical(of) =>
      && start != ""
      && exists k: nat :: k < maxDepth && names.Ends(start, k, Broken) && of == names.Orbit(start, k)
    case LookupFailed(of) =>
      && start != ""
      && exists k: nat :: k < maxDepth && names.Ends(start, k, Terminal) && of == names.Orbit(start, k)
                          && names.ips(of).None?
    case NoRecords(of) =>
      && start != ""
      && exists k: nat :: k < maxDepth && names.Ends(start, k, Terminal) && of == names.Orbit(start, k)
                          && names.ips(of).Some? && AllNil(names.ips(of).value)
    case Resolved(resolution) =>
      && start != ""
      && exists k: nat :: k < maxDepth && names.Ends(start, k, Terminal) && Describes(names, start, k, resolution)
    case TooDeep =>
      start != "" && names.Leads(start, Depth(maxDepth)) && names.Distinct(start, Depth(maxDepth))
  }

  /** The resolution lists the whole chain and the distinct addresses of its last name. */
  ghost predicate Describes(names: Names, start: string, k: nat, resolution: Resolution) {
    var found := names.ips(names.Orbit(start, k));
    && found.Some?
    && resolution.hostChain == names.Chain(start, k + 1)
    && resolution.ipv4 == Unique(Texts(found.value, true))
    && resolution.ipv6 == Unique(Texts(found.value, false))
    && !AllNil(found.value)
  }

  /** A loop is reported exactly when the chain returns to one of its names early enough. */
  lemma LoopReported(names: Names, maxDepth: int, host: string, r: Outcome)
    requires Explains(names, maxDepth, host, r)
    ensures r.Loop? <==>
            names.normalize(host) != "" && exists k: nat :: k < maxDepth && names.Returns(names.normalize(host), k)
  {
    var start := names.normalize(host);
    if !r.Loop? && start != "" {
      if k: nat :| k < maxDepth && names.Returns(start, k) {
        names.ReturningLeadsForever(start, k, Depth(maxDepth));
      }
    }
  }

  /** The depth error is reported exactly when maxDepth different names all lead on. */
  lemma DepthReported(names: Names, maxDepth: int, host: string, r: Outcome)
    requires Explains(names, maxDepth, host, r)
    ensures r.TooDeep? <==>
            && names.normalize(host) != ""
            && names.Leads(names.normalize(host), Depth(maxDepth))
            && names.Distinct(names.normalize(host), Depth(maxDepth))
  {
  }

  /** The chain is resolved, or fails for its addresses, exactly when it ends in a terminal
      name within the depth. */
  lemma EndReported(names: Names, maxDepth: int, host: string, r: Outcome)
    requires Explains(names, maxDepth, host, r)
    ensures r.Resolved? || r.LookupFailed? || r.NoRecords? <==>
            names.normalize(host) != "" && exists k: nat :: k < maxDepth && names.Ends(names.normalize(host), k, Terminal)
  {
    var start := names.normalize(host);
    if start != "" {
      if k: nat :| k < maxDepth && names.Ends(start, k, Terminal) {
        EndExcludesTheRest(names, maxDepth, host, r, k);
      }
    }
  }

  lemma EndExcludesTheRest(names: Names, maxDepth: int, host: string, r: Outcome, k: nat)
    requires Explains(names, maxDepth, host, r)
    requires k < maxDepth && names.normalize(host) != "" && names.Ends(names.normalize(host), k, Terminal)
    ensures r.Resolved? || r.LookupFailed? || r.NoRecords?
  {
    var start := names.normalize(host);
    match r
    case Loop(at) =>
      var l: nat :| l < maxDepth && names.Returns(start, l) && names.Distinct(start, l);
      names.ReturningLeadsForever(start, l, k + 1);
    case EmptyCanonical(of) =>
      if l: nat :| l < maxDepth && names.Ends(start, l, Broken) {
        names.EndIsUnique(start, k, Terminal, l, Broken);
      }
    case _ =>
  }

  /** There is one outcome for every host: the explanations exclude each other. */
  lemma OutcomeIsDetermined(names: Names, maxDepth: int, host: string, r: Outcome, s: Outcome)
    requires Explains(names, maxDepth, host, r) && Explains(names, maxDepth, host, s)
    ensures r == s
  {
    LoopReported(names, maxDepth, host, r);
    LoopReported(names, maxDepth, host, s);
    DepthReported(names, maxDepth, host, r);
    DepthReported(names, maxDepth, host, s);
    EndReported(names, maxDepth, host, r);
    EndReported(names, maxDepth, host, s);
    var start := names.normalize(host);
    if r.Loop? && s.Loop? {
      var k: nat :| k < maxDepth && names.Returns(start, k) && names.Distinct(start, k) && r.at == names.Orbit(start, k);
      var l: nat :| l < maxDepth && names.Returns(start, l) && names.Distinct(start, l) && s.at == names.Orbit(start, l);
    } else if r.EmptyCanonical? && s.EmptyCanonical? {
      var k: nat :| k < maxDepth && names.Ends(start, k, Broken) && r.of == names.Orbit(start, k);
      var l: nat :| l < maxDepth && names.Ends(start, l, Broken) && s.of == names.Orbit(start, l);
      names.EndIsUnique(start, k, Broken, l, Broken);
    } else if start != "" && (r.Resolved? || r.LookupFailed? || r.NoRecords?) {
      var k := EndOf(names, maxDepth, host, r);
      var l := EndOf(names, maxDepth, host, s);
      names.EndIsUnique(start, k, Terminal, l, Terminal);
    }
  }

  /** What an outcome says about the terminal name at position k. */
  ghost predicate AboutEnd(names: Names, start: string, k: nat, r: Outcome) {
    var of := names.Orbit(start, k);
    match r
    case Resolved(resolution) => Describes(names, start, k, resolution)
    case LookupFailed(o) => o == of && names.ips(of).None?
    case NoRecords(o) => o == of && names.ips(of).Some? && AllNil(names.ips(of).value)
    case _ => false
  }

  lemma EndOf(names: Names, maxDepth: int, host: string, r: Outcome) returns (k: nat)
    requires Explains(names, maxDepth, host, r) && (r.Resolved? || r.LookupFailed? || r.NoRecords?)
    ensures k < maxDepth && names.Ends(names.normalize(host), k, Terminal)
    ensures AboutEnd(names, names.normalize(host), k, r)
  {
    var start := names.normalize(host);
    match r
    case Resolved(resolution) =>
      k :| k < maxDepth && names.Ends(start, k, Terminal) && Describes(names, start, k, resolution);
    case LookupFailed(of) =>
      k :| k < maxDepth && names.Ends(start, k, Terminal) && of == names.Orbit(start, k) && names.ips(of).None?;
    case NoRecords(of) =>
      k :| k < maxDepth && names.Ends(start, k, Terminal) && of == names.Orbit(start, k)
           && names.ips(of).Some? && AllNil(names.ips(of).value);
    case _ =>
  }

  // ---------------------------------------------------------------------
  // The outcomes, in terms of the lookups alone
  // ---------------------------------------------------------------------

  /** The second name is the normalised canonical name of the first, and another one. */
  ghost predicate LeadsTo(names: Names, h: string, next: string) {
    names.cname(h).Some? && next == names.normalize(names.cname(h).value) && next != "" && next != h
  }

  ghost predicate Hops(names: Names, host: string, c: seq<string>) {
    && c != [] && c[0] == names.normalize(host) && c[0] != ""
    && forall i, j :: 0 <= i < |c| - 1 && j == i + 1 ==> LeadsTo(names, c[i], c[j])
  }

  /** The name has no canonical name, or is its own. */
  ghost predicate Stops(names: Names, h: string) {
    names.cname(h).Some? ==> names.normalize(names.cname(h).value) == h
  }

  ghost predicate NoRepeats(c: seq<string>) {
    forall i, j :: 0 <= i < j < |c| ==> c[i] != c[j]
  }

  lemma ChainHops(names: Names, host: string, k: nat)
    requires names.normalize(host) != "" && names.Leads(names.normalize(host), k)
    ensures Hops(names, host, names.Chain(names.normalize(host), k + 1))
  {
    var start := names.normalize(host);
    var c := names.Chain(start, k + 1);
    forall i, j | 0 <= i < |c| - 1 && j == i + 1
      ensures LeadsTo(names, c[i], c[j])
    {
      assert names.Ask(names.Orbit(start, i)).Hop?;
    }
  }

  lemma AskIs(names: Names, h: string)
    requires h != ""
    ensures names.Ask(h) == Terminal <==> Stops(names, h)
    ensures names.Ask(h) == Broken <==> names.cname(h).Some? && names.normalize(names.cname(h).value) == ""
  {
  }

  lemma ChainRepeats(names: Names, start: string, k: nat)
    requires names.Distinct(start, k)
    ensures var c := names.Chain(start, k + 1); c[k] == names.Orbit(start, k) && NoRepeats(c[..k])
  {
  }

  lemma {:induction false} TextsAre(addrs: seq<Address>, t: string)
    ensures t in Texts(addrs, true) <==> V4(t) in addrs
    ensures t in Texts(addrs, false) <==> V6(t) in addrs
  {
    if addrs != [] {
      TextsAre(addrs[1..], t);
      assert addrs == [addrs[0]] + addrs[1..];
    }
  }

  /** Texts of one family come in the order of the answer. */
  lemma {:induction false} TextFrom(addrs: seq<Address>, v4: bool, k: nat) returns (at: nat)
    requires k < |Texts(addrs, v4)|
    ensures at < |addrs| && addrs[at] == (if v4 then V4(Texts(addrs, v4)[k]) else V6(Texts(addrs, v4)[k]))
    ensures Texts(addrs[..at], v4) == Texts(addrs, v4)[..k]
    decreases |addrs|
  {
    var front, last := addrs[..|addrs| - 1], addrs[|addrs| - 1];
    assert addrs == front + [last];
    TextsSnoc(front, last, v4);
    if k < |Texts(front, v4)| {
      at := TextFrom(front, v4, k);
      assert addrs[..at] == front[..at];
    } else {
      at := |addrs| - 1;
    }
  }

  /** Of two addresses in the result, the one listed first occurs in the answer before the other
      one does for the first time. */
  lemma AddressOrder(addrs: seq<Address>, v4: bool, i: nat, j: nat)
    requires i < j < |Unique(Texts(addrs, v4))|
    ensures var list := Unique(Texts(addrs, v4));
            exists p, q :: 0 <= p < q < |addrs|
              && addrs[p] == (if v4 then V4(list[i]) else V6(list[i]))
              && addrs[q] == (if v4 then V4(list[j]) else V6(list[j])) && addrs[q] !in addrs[..q]
  {
    hide Unique, Texts;
    var texts := Texts(addrs, v4);
    UniqueKeepsOrder(texts, i, j);
    var k, l :| 0 <= k < l < |texts| && texts[k] == Unique(texts)[i] && texts[l] == Unique(texts)[j]
                && Unique(texts)[j] !in texts[..l];
    var q := TextFrom(addrs, v4, l);
    assert texts[..l][k] == texts[k];
    var p := TextFrom(addrs[..q], v4, k);
    assert addrs[..q][p] == addrs[p];
    TextsAre(addrs[..q], texts[l]);
  }

  lemma NilTexts(addrs: seq<Address>)
    ensures AllNil(addrs) <==> forall a :: a in addrs ==> a == Nil
  {
    hide Texts;
    forall t
      ensures t in Texts(addrs, true) <==> V4(t) in addrs
      ensures t in Texts(addrs, false) <==> V6(t) in addrs
    {
      TextsAre(addrs, t);
    }
    if a :| a in addrs && a != Nil {
      assert a.text in Texts(addrs, a.V4?);
    } else if Texts(addrs, true) != [] {
      assert Texts(addrs, true)[0] in Texts(addrs, true);
    } else if Texts(addrs, false) != [] {
      assert Texts(addrs, false)[0] in Texts(addrs, false);
    }
  }

  /** One turn of the loop: a name seen before closes a loop; a new one is the next of the chain. */
  lemma SeenBefore(names: Names, maxDepth: int, host: string, depth: nat, current: string)
    requires var start := names.normalize(host);
             && start != "" && names.Leads(start, depth) && names.Distinct(start, depth) && depth < maxDepth
             && current == names.Orbit(start, depth) && current in names.Chain(start, depth)
    ensures Explains(names, maxDepth, host, Loop(current))
  {
    var start := names.normalize(host);
    var i :| 0 <= i < depth && names.Chain(start, depth)[i] == current;
    assert names.Returns(start, depth);
  }

  lemma ChainStarts(names: Names, start: string)
    ensures names.Leads(start, 0) && names.Distinct(start, 0) && names.Orbit(start, 0) == start
  {
  }

  lemma NotSeen(names: Names, start: string, depth: nat, current: string)
    requires names.Distinct(start, depth) && current == names.Orbit(start, depth) && current !in names.Chain(start, depth)
    ensures names.Distinct(start, depth + 1)
  {
    forall i | 0 <= i < depth
      ensures names.Orbit(start, i) != current
    {
      assert names.Chain(start, depth)[i] == names.Orbit(start, i);
    }
  }

  lemma OneHop(names: Names, start: string, depth: nat, current: string)
    requires names.Leads(start, depth) && current == names.Orbit(start, depth)
    ensures names.Ask(current).Hop? ==>
              names.Leads(start, depth + 1) && names.Orbit(start, depth + 1) == names.Ask(current).next
    ensures !names.Ask(current).Hop? ==> names.Ends(start, depth, names.Ask(current))
  {
  }

  lemma EndStops(names: Names, host: string, k: nat)
    requires names.normalize(host) != "" && names.Ends(names.normalize(host), k, Terminal)
    ensures Stops(names, names.Orbit(names.normalize(host), k))
  {
    ChainHops(names, host, k);
    var last := LastName(names, host, k);
    AskIs(names, last);
  }

  /** A resolution lists the chain down to a name that has no canonical name other than itself,
      and exactly the addresses of that name, each once. */
  lemma ResolutionIs(names: Names, maxDepth: int, host: string, r: Outcome)
    requires Explains(names, maxDepth, host, r) && r.Resolved?
    ensures var c := r.resolution.hostChain;
            && Hops(names, host, c) && |c| <= maxDepth && NoRepeats(c) && Stops(names, c[|c| - 1])
            && names.ips(c[|c| - 1]).Some?
            && var found := names.ips(c[|c| - 1]).value;
               && (forall t :: t in r.resolution.ipv4 <==> V4(t) in found)
               && (forall t :: t in r.resolution.ipv6 <==> V6(t) in found)
    ensures NoRepeats(r.resolution.ipv4) && NoRepeats(r.resolution.ipv6)
    ensures r.resolution.ipv4 != [] || r.resolution.ipv6 != []
  {
    hide Texts, Unique;
    var k := EndOf(names, maxDepth, host, r);
    var start := names.normalize(host);
    names.EndedChainIsDistinct(start, k, Terminal);
    ChainHops(names, host, k);
    var last := LastName(names, host, k);
    AskIs(names, last);
    var found := names.ips(names.Orbit(start, k)).value;
    forall t
      ensures t in Texts(found, true) <==> V4(t) in found
      ensures t in Texts(found, false) <==> V6(t) in found
    {
      TextsAre(found, t);
    }
    UniqueEmpty(Texts(found, true));
    UniqueEmpty(Texts(found, false));
  }

  /** The last name of a chain is not empty. */
  lemma LastName(names: Names, host: string, k: nat) returns (last: string)
    requires Hops(names, host, names.Chain(names.normalize(host), k + 1))
    ensures last == names.Orbit(names.normalize(host), k) && last != ""
  {
    last := names.Chain(names.normalize(host), k + 1)[k];
    if k > 0 { assert LeadsTo(names, names.Chain(names.normalize(host), k + 1)[k - 1], last); }
  }

  /** The host chain of a resolution starts at the normalised host, has no repeats, each name is
      the normalised canonical name of the one before, and the last name has no other one. */
  lemma HostChain(names: Names, maxDepth: int, host: string, r: Outcome)
    requires Explains(names, maxDepth, host, r) && r.Resolved?
    ensures var c := r.resolution.hostChain;
            && 0 < |c| <= maxDepth && c[0] == names.normalize(host)
            && (forall i, j :: 0 <= i < j < |c| ==> c[i] != c[j])
            && (forall i, j :: 0 <= i < |c| - 1 && j == i + 1 ==>
                  names.Ask(c[i]) == Hop(c[j])
                  && names.cname(c[i]).Some? && c[j] == names.normalize(names.cname(c[i]).value) && c[j] != "")
            && names.Ask(c[|c| - 1]) == Terminal
            && (names.cname(c[|c| - 1]).None? || names.normalize(names.cname(c[|c| - 1]).value) == c[|c| - 1])
  {
    ResolutionIs(names, maxDepth, host, r);
    var c := r.resolution.hostChain;
    forall i, j | 0 <= i < |c| - 1 && j == i + 1
      ensures names.Ask(c[i]) == Hop(c[j])
    {
      assert LeadsTo(names, c[i], c[j]);
    }
    var k := EndOf(names, maxDepth, host, r);
    var last := LastName(names, host, k);
  }

  /** A loop error: the chain comes back to a name for the first time. */
  lemma LoopIs(names: Names, maxDepth: int, host: string, r: Outcome) returns (c: seq<string>)
    requires Explains(names, maxDepth, host, r) && r.Loop?
    ensures Hops(names, host, c) && 2 <= |c| <= maxDepth
    ensures NoRepeats(c[..|c| - 1]) && c[|c| - 1] == r.at && r.at in c[..|c| - 1]
  {
    var start := names.normalize(host);
    var k: nat :| k < maxDepth && names.Returns(start, k) && names.Distinct(start, k) && r.at == names.Orbit(start, k);
    c := names.Chain(start, k + 1);
    ChainHops(names, host, k);
    ChainRepeats(names, start, k);
    var i :| 0 <= i < k && names.Orbit(start, i) == names.Orbit(start, k);
    assert c[..k][i] == r.at;
  }

  /** A depth error: as many different names as the depth allows all lead on. */
  lemma TooDeepIs(names: Names, maxDepth: int, host: string, r: Outcome) returns (c: seq<string>)
    requires Explains(names, maxDepth, host, r) && r.TooDeep?
    ensures Hops(names, host, c) && |c| - 1 == (if maxDepth > 0 then maxDepth else 0)
    ensures NoRepeats(c[..|c| - 1])
  {
    var start := names.normalize(host);
    c := names.Chain(start, Depth(maxDepth) + 1);
    ChainHops(names, host, Depth(maxDepth));
    ChainRepeats(names, start, Depth(maxDepth));
  }

  /** The other errors: no host to begin with, a name whose canonical name normalises to nothing,
      or a last name whose addresses cannot be looked up or hold no IP. */
  lemma ErrorIs(names: Names, maxDepth: int, host: string, r: Outcome) returns (c: seq<string>)
    requires Explains(names, maxDepth, host, r) && !r.Resolved? && !r.Loop? && !r.TooDeep?
    ensures r.EmptyHost? <==> names.normalize(host) == ""
    ensures !r.EmptyHost? ==> Hops(names, host, c) && |c| <= maxDepth && c[|c| - 1] == r.of
    ensures r.EmptyCanonical? ==> names.cname(r.of).Some? && names.normalize(names.cname(r.of).value) == ""
    ensures r.LookupFailed? ==> Stops(names, r.of) && names.ips(r.of).None?
    ensures r.NoRecords? ==>
              Stops(names, r.of) && names.ips(r.of).Some? && forall a :: a in names.ips(r.of).value ==> a == Nil
  {
    hide AllNil;
    var start := names.normalize(host);
    c := [];
    if !r.EmptyHost? {
      var k: nat;
      if r.EmptyCanonical? {
        k :| k < maxDepth && names.Ends(start, k, Broken) && r.of == names.Orbit(start, k);
      } else {
        k := EndOf(names, maxDepth, host, r);
        if r.NoRecords? { NilTexts(names.ips(r.of).value); }
      }
      hide Explains;
      c := names.Chain(start, k + 1);
      ChainHops(names, host, k);
      var last := LastName(names, host, k);
      AskIs(names, last);
    }
  }

  // ---------------------------------------------------------------------
  // The resolver
  // ---------------------------------------------------------------------

  class Resolver {
    const names: Names
    const maxDepth: int

    constructor (names: Names, maxDepth: int)
      ensures this.names == names && this.maxDepth == maxDepth
    {
      this.names := names;
      this.maxDepth := maxDepth;
    }

    /** Split by family, in order, without repetition; entries without an IP are skipped. */
    method Addresses(addrs: seq<Address>) returns (ipv4: seq<string>, ipv6: seq<string>)
      ensures ipv4 == Unique(Texts(addrs, true)) && ipv6 == Unique(Texts(addrs, false))
      ensures ipv4 == [] && ipv6 == [] <==> AllNil(addrs)
    {
      ipv4, ipv6 := [], [];
      for i := 0 to |addrs|
        invariant ipv4 == Unique(Texts(addrs[..i], true))
        invariant ipv6 == Unique(Texts(addrs[..i], false))
      {
        assert addrs[..i + 1] == addrs[..i] + [addrs[i]];
        TextsSnoc(addrs[..i], addrs[i], true);
        TextsSnoc(addrs[..i], addrs[i], false);
        assert Texts(addrs[..i], true) + [] == Texts(addrs[..i], true);
        assert Texts(addrs[..i], false) + [] == Texts(addrs[..i], false);
        match addrs[i]
        case Nil =>
        case V4(text) => ipv4 := AppendUnique(ipv4, text, Texts(addrs[..i], true));
        case V6(text) => ipv6 := AppendUnique(ipv6, text, Texts(addrs[..i], false));
      }
      assert addrs[..|addrs|] == addrs;
      UniqueEmpty(Texts(addrs, true));
      UniqueEmpty(Texts(addrs, false));
    }

    /** The address lookup for the name at which the chain ended. */
    method AtTheEnd(host: string, ghost k: nat, current: string, hostChain: seq<string>) returns (r: Outcome)
      requires names.normalize(host) != "" && k < maxDepth
      requires names.Ends(names.normalize(host), k, Terminal)
      requires current == names.Orbit(names.normalize(host), k)
      requires hostChain == names.Chain(names.normalize(host), k + 1)
      ensures Explains(names, maxDepth, host, r)
      ensures r.Resolved? || ((r.LookupFailed? || r.NoRecords?) && Stops(names, r.of))
      ensures r.Resolved? ==>
                var c := r.resolution.hostChain;
                && Hops(names, host, c) && |c| <= maxDepth && NoRepeats(c) && Stops(names, c[|c| - 1])
    {
      hide Unique, Texts, AllNil;
      assert Stops(names, current) by { EndStops(names, host, k); }
      var found := names.ips(current);
      if found.None? {
        return LookupFailed(current);
      }
      var ipv4, ipv6 := Addresses(found.value);
      if |ipv4| == 0 && |ipv6| == 0 {
        return NoRecords(current);
      }
      r := Resolved(Resolution(hostChain, ipv4, ipv6));
      assert Describes(names, names.normalize(host), k, r.resolution);
      ResolutionIs(names, maxDepth, host, r);
    }

    method Resolve(host: string) returns (r: Outcome)
      ensures Explains(names, maxDepth, host, r)
      ensures r.Resolved? ==>
                var c := r.resolution.hostChain;
                && Hops(names, host, c) && |c| <= maxDepth && NoRepeats(c) && Stops(names, c[|c| - 1])
      ensures r.LookupFailed? || r.NoRecords? ==> Stops(names, r.of)
      ensures r.EmptyCanonical? ==> names.cname(r.of).Some? && names.normalize(names.cname(r.of).value) == ""
    {
      hide Describes, Hops, NoRepeats, Names.Leads, Names.Distinct, Names.Returns, Names.Ends, Names.Orbit;
      var current := names.normalize(host);
      if current == "" {
        return EmptyHost;
      }
      ghost var start := current;
      ChainStarts(names, start);
      var visited: set<string> := {};
      var hostChain: seq<string> := [];
      var depth := 0;
      while depth < maxDepth
        invariant 0 <= depth && (depth == 0 || depth <= maxDepth)
        invariant names.Leads(start, depth) && names.Distinct(start, depth)
        invariant current == names.Orbit(start, depth)
        invariant hostChain == names.Chain(start, depth)
        invariant forall x :: x in visited <==> x in hostChain
      {
        if current in visited {
          SeenBefore(names, maxDepth, host, depth, current);
          return Loop(current);
        }
        NotSeen(names, start, depth, current);
        OneHop(names, start, depth, current);
        visited := visited + {current};
        hostChain := hostChain + [current];
        var answer := names.cname(current);
        if answer.Some? {
          var canonical := names.normalize(answer.value);
          if canonical == "" {
            return EmptyCanonical(current);
          }
          if canonical != current {
            current := canonical;
            depth := depth + 1;
            continue;
          }
        }
        r := AtTheEnd(host, depth, current, hostChain);
        return;
      }
      return TooDeep;
    }
  }
}
