/** The address directory: each server appends a line with its rank and address to a shared file
    (hvac_comm.cpp), and clients scan the file for the first line with the rank they want and remember
    what they found (hvac_comm_client.cpp). */
module Directory {
  import opened Decimal
  import opened Text

  datatype Entry = Entry(rank: int, addr: string)

  // ---------------------------------------------------------------------------------------------
  // Printing and scanning
  // ---------------------------------------------------------------------------------------------

  /** `"%d %s\n"`. */
  function PrintLine(e: Entry): string {
    IntToString(e.rank) + " " + e.addr + "\n"
  }

  function Print(entries: seq<Entry>): string {
    if entries == [] then "" else PrintLine(entries[0]) + Print(entries[1..])
  }

  /** The length of the longest prefix without white space. */
  function SolidRun(s: string): (k: nat)
    ensures k <= |s|
    ensures forall i | 0 <= i < k :: !IsSpace(s[i])
    ensures k < |s| ==> IsSpace(s[k])
  {
    if s != [] && !IsSpace(s[0]) then 1 + SolidRun(s[1..]) else 0
  }

  lemma ParseIntShrinks(s: string)
    ensures ParseInt(s).Some? ==> |ParseInt(s).value.rest| <= |s|
  {
  }

  /** One `fscanf` with that format, if it converts both fields. */
  function ScanLine(s: string): (r: Option<Parsed<Entry>>)
    ensures r.Some? ==> |r.value.rest| < |s|
  {
    ParseIntShrinks(s);
    match ParseInt(s)
    case None => None
    case Some(number) =>
      var t := SkipSpace(number.rest);
      var k := SolidRun(t);
      if k == 0 then None else Some(Parsed(Entry(number.value, t[..k]), SkipSpace(t[k..])))
  }

  /** All the lines a scanning loop sees: it stops where a conversion fails. */
  function Scan(s: string): seq<Entry>
    decreases |s|
  {
    match ScanLine(s)
    case None => []
    case Some(line) => [line.value] + Scan(line.rest)
  }

  /** An address that `%s` can read back: not empty, and no white space in it. */
  predicate Readable(addr: string) {
    addr != [] && forall i | 0 <= i < |addr| :: !IsSpace(addr[i])
  }

  lemma LinesAsPrinted()
    ensures PrintLine(Entry(0, "h0")) + PrintLine(Entry(-12, "h1")) == "0 h0\n-12 h1\n"
  {
    assert ToString(12) == ToString(1) + ToString(2);
    assert IntToString(-12) == "-12" && IntToString(0) == "0";
  }

  lemma SolidRunIs(s: string, k: nat)
    requires k <= |s| && (forall i | 0 <= i < k :: !IsSpace(s[i])) && (k < |s| ==> IsSpace(s[k]))
    ensures SolidRun(s) == k
  {
  }

  lemma LineShape(number: string, addr: string, more: string)
    ensures number + " " + addr + "\n" + more == number + (" " + (addr + ("\n" + more)))
  {
  }

  lemma SkipOne(c: char, t: string)
    requires IsSpace(c) && (t == [] || !IsSpace(t[0]))
    ensures SkipSpace([c] + t) == t
  {
    assert ([c] + t)[1..] == t;
  }

  /** The text after a line is either empty or starts with a printed number. */
  lemma {:induction false} PrintStartsSolid(entries: seq<Entry>)
    ensures Print(entries) == [] || !IsSpace(Print(entries)[0])
  {
    if entries != [] {
      var e := entries[0];
      LineShape(IntToString(e.rank), e.addr, Print(entries[1..]));
      PrintedStartsSolid(e.rank, " " + (e.addr + ("\n" + Print(entries[1..]))));
    }
  }

  lemma ScanAddress(addr: string, rest: string)
    requires Readable(addr) && rest != [] && IsSpace(rest[0])
    ensures
      var t := addr + rest;
      var k := SolidRun(t);
      k == |addr| && t[..k] == addr && t[k..] == rest && !IsSpace(t[0])
  {
    SolidRunIs(addr + rest, |addr|);
  }

  lemma ScanPrintedLine(e: Entry, more: seq<Entry>)
    requires Readable(e.addr)
    ensures ScanLine(PrintLine(e) + Print(more)) == Some(Parsed(e, Print(more)))
  {
    var rest := "\n" + Print(more);
    var t := e.addr + rest;
    LineShape(IntToString(e.rank), e.addr, Print(more));
    ParseIntPrinted(e.rank, " " + t);
    ScanAddress(e.addr, rest);
    SkipOne(' ', t);
    PrintStartsSolid(more);
    SkipOne('\n', Print(more));
  }

  lemma {:induction false} ScanPrinted(entries: seq<Entry>)
    requires forall i | 0 <= i < |entries| :: Readable(entries[i].addr)
    ensures Scan(Print(entries)) == entries
  {
    if entries != [] {
      ScanPrintedLine(entries[0], entries[1..]);
      ScanPrinted(entries[1..]);
    }
  }

  lemma {:induction false} ScannedIsReadable(s: string)
    ensures forall i | 0 <= i < |Scan(s)| :: Readable(Scan(s)[i].addr)
    decreases |s|
  {
    match ScanLine(s)
    case None =>
    case Some(line) => ScannedIsReadable(line.rest);
  }

  /** Printing a directory and scanning it back gives the directory exactly when every address is
      non-empty and free of white space. */
  lemma RoundTripExactly(entries: seq<Entry>)
    ensures Scan(Print(entries)) == entries <==> forall i | 0 <= i < |entries| :: Readable(entries[i].addr)
  {
    ScannedIsReadable(Print(entries));
    if forall i | 0 <= i < |entries| :: Readable(entries[i].addr) {
      ScanPrinted(entries);
    }
  }

  lemma {:induction false} PrintConcat(a: seq<Entry>, b: seq<Entry>)
    ensures Print(a + b) == Print(a) + Print(b)
  {
    if a == [] {
      assert a + b == b;
    } else {
      assert (a + b)[1..] == a[1..] + b;
      PrintConcat(a[1..], b);
    }
  }

  // ---------------------------------------------------------------------------------------------
  // Looking an address up
  // ---------------------------------------------------------------------------------------------

  /** The address on the first line with the rank. */
  function Find(entries: seq<Entry>, rank: int): Option<string> {
    if entries == [] then None
    else if entries[0].rank == rank then Some(entries[0].addr)
    else Find(entries[1..], rank)
  }

  /** The address is the one on the first line that carries the rank. */
  ghost predicate FirstOfRank(entries: seq<Entry>, rank: int, addr: string) {
    exists i | 0 <= i < |entries| ::
      entries[i] == Entry(rank, addr) && forall j | 0 <= j < i :: entries[j].rank != rank
  }

  /** Looking up fails exactly when no line carries the rank, and finds an address exactly when it is on the
      first line that does. */
  lemma {:induction false} FindExactly(entries: seq<Entry>, rank: int, addr: string)
    ensures Find(entries, rank) == None <==> forall i | 0 <= i < |entries| :: entries[i].rank != rank
    ensures Find(entries, rank) == Some(addr) <==> FirstOfRank(entries, rank, addr)
  {
    if entries != [] {
      FindExactly(entries[1..], rank, addr);
      assert forall i | 0 < i < |entries| :: entries[i] == entries[1..][i - 1];
      if entries[0].rank == rank {
        assert entries[0] == Entry(rank, entries[0].addr);
      } else {
        RankFurtherOn(entries, rank, addr);
      }
    }
  }

  lemma RankFurtherOn(entries: seq<Entry>, rank: int, addr: string)
    requires entries != [] && entries[0].rank != rank
    ensures FirstOfRank(entries, rank, addr) <==> FirstOfRank(entries[1..], rank, addr)
  {
    if FirstOfRank(entries[1..], rank, addr) {
      var i :| 0 <= i < |entries[1..]| && entries[1..][i] == Entry(rank, addr)
        && forall j | 0 <= j < i :: entries[1..][j].rank != rank;
      assert entries[i + 1] == Entry(rank, addr);
      forall j | 0 <= j < i + 1 ensures entries[j].rank != rank {
        assert j > 0 ==> entries[j] == entries[1..][j - 1];
      }
    }
    if FirstOfRank(entries, rank, addr) {
      var i :| 0 <= i < |entries| && entries[i] == Entry(rank, addr)
        && forall j | 0 <= j < i :: entries[j].rank != rank;
      assert entries[1..][i - 1] == Entry(rank, addr);
    }
  }

  lemma {:induction false} FoundStays(entries: seq<Entry>, more: seq<Entry>, rank: int)
    ensures Find(entries + more, rank) ==
      if Find(entries, rank) == None then Find(more, rank) else Find(entries, rank)
  {
    if entries == [] {
      assert entries + more == more;
    } else {
      assert (entries + more)[1..] == entries[1..] + more;
      FoundStays(entries[1..], more, rank);
    }
  }

  /** Every remembered address is what a fresh scan of the file would find. */
  ghost predicate Fresh(cache: map<int, string>, file: string) {
    forall rank | rank in cache :: Find(Scan(file), rank) == Some(cache[rank])
  }

  /** The text does not end inside a number or an address. */
  predicate EndsClosed(s: string) {
    s == [] || IsSpace(s[|s| - 1])
  }

  lemma {:induction false} SkipSpaceConcat(s: string, t: string)
    ensures SkipSpace(s + t) == if SkipSpace(s) == [] then SkipSpace(t) else SkipSpace(s) + t
    ensures EndsClosed(s) ==> EndsClosed(SkipSpace(s))
  {
    if s == [] {
      assert s + t == t;
    } else if IsSpace(s[0]) {
      assert (s + t)[1..] == s[1..] + t;
      SkipSpaceConcat(s[1..], t);
    }
  }

  /** The same conversion with more text behind it. */
  function Longer<T>(p: Option<Parsed<T>>, t: string): Option<Parsed<T>> {
    match p
    case None => None
    case Some(v) => Some(Parsed(v.value, v.rest + t))
  }

  /** A conversion that succeeds leaves text behind, and that ends closed. */
  predicate LeavesClosed<T>(p: Option<Parsed<T>>) {
    p.Some? ==> p.value.rest != [] && EndsClosed(p.value.rest)
  }

  lemma ParseDigitsConcat(s: string, t: string)
    requires s != [] && EndsClosed(s)
    ensures ParseDigits(s + t) == Longer(ParseDigits(s), t) && LeavesClosed(ParseDigits(s))
  {
    var k := DigitRun(s);
    assert k < |s|;
    DigitRunIs(s + t, k);
    assert (s + t)[..k] == s[..k] && (s + t)[k..] == s[k..] + t;
  }

  lemma ParseSignedConcat(s: string, t: string)
    requires s != [] && EndsClosed(s)
    ensures ParseSigned(s + t) == Longer(ParseSigned(s), t) && LeavesClosed(ParseSigned(s))
  {
    if s[0] == '-' || s[0] == '+' {
      assert (s + t)[1..] == s[1..] + t;
      ParseDigitsConcat(s[1..], t);
    } else {
      ParseDigitsConcat(s, t);
    }
  }

  lemma ParseIntConcat(s: string, t: string)
    requires ParseInt(s).Some? && EndsClosed(s)
    ensures ParseInt(s + t) == Longer(ParseInt(s), t) && LeavesClosed(ParseInt(s))
  {
    SkipSpaceConcat(s, t);
    ParseSignedConcat(SkipSpace(s), t);
  }

  lemma ScanAddressConcat(u: string, t: string)
    requires SolidRun(u) > 0 && EndsClosed(u)
    ensures SolidRun(u) < |u| && SolidRun(u + t) == SolidRun(u)
    ensures (u + t)[..SolidRun(u)] == u[..SolidRun(u)] && (u + t)[SolidRun(u)..] == u[SolidRun(u)..] + t
    ensures EndsClosed(u[SolidRun(u)..])
  {
    SolidRunIs(u + t, SolidRun(u));
  }

  /** A line that ends closed is read the same whatever follows it. */
  lemma ScanLineConcat(s: string, t: string)
    requires ScanLine(s).Some? && EndsClosed(s)
    ensures EndsClosed(ScanLine(s).value.rest)
    ensures
      var line := ScanLine(s).value;
      ScanLine(s + t) == Some(Parsed(line.value, if line.rest == [] then SkipSpace(t) else line.rest + t))
  {
    ParseIntConcat(s, t);
    var number := ParseInt(s).value;
    SkipSpaceConcat(number.rest, t);
    var u := SkipSpace(number.rest);
    ScanAddressConcat(u, t);
    SkipSpaceConcat(u[SolidRun(u)..], t);
  }

  lemma ScanNothing()
    ensures Scan("") == []
  {
  }

  lemma ScanStep(s: string, line: Parsed<Entry>)
    requires ScanLine(s) == Some(line)
    ensures Scan(s) == [line.value] + Scan(line.rest)
  {
  }

  lemma OneBefore(e: Entry, xs: seq<Entry>, ys: seq<Entry>)
    ensures [e] + (xs + ys) == [e] + xs + ys
  {
  }

  /** With t behind it, s has the same lines and then `more`. */
  predicate Extends(s: string, t: string, more: seq<Entry>) {
    Scan(s + t) == Scan(s) + more
  }

  lemma LastLineExtends(s: string, t: string)
    requires ScanLine(s).Some? && EndsClosed(s) && ScanLine(s).value.rest == []
    ensures Extends(s, t, Scan(SkipSpace(t)))
  {
    var line := ScanLine(s).value;
    ScanLineConcat(s, t);
    ScanStep(s, line);
    ScanStep(s + t, Parsed(line.value, SkipSpace(t)));
    ScanNothing();
  }

  lemma FirstLineExtends(s: string, t: string, more: seq<Entry>)
    requires ScanLine(s).Some? && EndsClosed(s) && ScanLine(s).value.rest != []
    requires Extends(ScanLine(s).value.rest, t, more)
    ensures Extends(s, t, more)
  {
    var line := ScanLine(s).value;
    ScanLineConcat(s, t);
    ScanStep(s, line);
    ScanStep(s + t, Parsed(line.value, line.rest + t));
    OneBefore(line.value, Scan(line.rest), more);
  }

  lemma NoLineExtends(s: string, t: string)
    requires ScanLine(s) == None
    ensures Extends(s, t, Scan(s + t))
  {
  }

  lemma RestEndsClosed(s: string)
    requires ScanLine(s).Some? && EndsClosed(s)
    ensures EndsClosed(ScanLine(s).value.rest)
  {
    ScanLineConcat(s, "");
  }

  /** Appending any text to a file that ends closed only adds lines behind those it had. */
  lemma {:induction false} ScanConcat(s: string, t: string) returns (more: seq<Entry>)
    requires EndsClosed(s)
    ensures Extends(s, t, more)
    decreases |s|
  {
    var line := ScanLine(s);
    if line == None {
      NoLineExtends(s, t);
      more := Scan(s + t);
    } else if line.value.rest == [] {
      LastLineExtends(s, t);
      more := Scan(SkipSpace(t));
    } else {
      RestEndsClosed(s);
      more := ScanConcat(line.value.rest, t);
      FirstLineExtends(s, t, more);
    }
  }

  /** Servers only append, so remembered addresses never go stale: whatever text is added to a file that does
      not end inside a line's number or address, a fresh scan still finds what is cached. */
  lemma AppendingKeepsFresh(cache: map<int, string>, file: string, text: string)
    requires EndsClosed(file) && Fresh(cache, file)
    ensures Fresh(cache, file + text)
  {
    var more := ScanConcat(file, text);
    forall rank | rank in cache ensures Find(Scan(file + text), rank) == Some(cache[rank]) {
      FoundStays(Scan(file), more, rank);
    }
  }

  lemma ScanHalfLine(rank: int, part: string)
    requires Readable(part)
    ensures Scan(IntToString(rank) + " " + part) == [Entry(rank, part)]
  {
    var s := IntToString(rank) + " " + part;
    assert s == IntToString(rank) + (" " + part);
    ParseIntPrinted(rank, " " + part);
    SkipOne(' ', part);
    SolidRunIs(part, |part|);
    assert part[..|part|] == part && part[|part|..] == [];
    assert ScanLine(s) == Some(Parsed(Entry(rank, part), ""));
    ScanNothing();
  }

  lemma FreshOfOne(rank: int, addr: string, file: string, found: string)
    requires Scan(file) == [Entry(rank, found)]
    ensures Fresh(map[rank := addr], file) <==> addr == found
  {
    assert Find(Scan(file), rank) == Some(found);
    assert rank in map[rank := addr];
  }

  lemma LineCompleted(number: string, part: string, missing: string)
    ensures number + " " + part + (missing + "\n") == number + " " + (part + missing) + "\n"
  {
  }

  lemma ScanOneLine(e: Entry)
    requires Readable(e.addr)
    ensures Scan(PrintLine(e)) == [e]
  {
    ScanPrinted([e]);
    assert [e][1..] == [];
    assert Print([e]) == PrintLine(e) + "";
    assert PrintLine(e) + "" == PrintLine(e);
  }

  /** A file read while its first line is being written ends inside the address: what is then remembered is
      right for the file as read, and stays right when the line is completed exactly if nothing of the
      address was missing. */
  lemma HalfWrittenAddressExactly(rank: int, part: string, missing: string)
    requires Readable(part) && Readable(part + missing)
    ensures
      var half := IntToString(rank) + " " + part;
      && half + (missing + "\n") == PrintLine(Entry(rank, part + missing))
      && Fresh(map[rank := part], half)
      && (Fresh(map[rank := part], half + (missing + "\n")) <==> missing == "")
  {
    ScanHalfLine(rank, part);
    FreshOfOne(rank, part, IntToString(rank) + " " + part, part);
    LineCompleted(IntToString(rank), part, missing);
    ScanOneLine(Entry(rank, part + missing));
    FreshOfOne(rank, part, PrintLine(Entry(rank, part + missing)), part + missing);
    assert missing == "" ==> part + missing == part;
    assert missing != "" ==> |part + missing| > |part|;
  }

  class AddressBook {
    var addressCache: map<int, string>

    constructor ()
      ensures addressCache == map[]
    {
      addressCache := map[];
    }

    /** `hvac_client_comm_lookup_addr` on the present contents of the file. Nothing is remembered of a
        rank that is not there. */
    method LookupAddr(file: string, rank: int) returns (found: Option<string>)
      modifies this
      ensures rank in old(addressCache) ==> found == Some(old(addressCache)[rank])
      ensures rank !in old(addressCache) ==> found == Find(Scan(file), rank)
      ensures rank !in old(addressCache) && found.None? ==>
        forall i | 0 <= i < |Scan(file)| :: Scan(file)[i].rank != rank
      ensures rank !in old(addressCache) && found.Some? ==> FirstOfRank(Scan(file), rank, found.value)
      ensures addressCache == if found.Some? then old(addressCache)[rank := found.value] else old(addressCache)
      ensures old(Fresh(addressCache, file)) ==> found == Find(Scan(file), rank) && Fresh(addressCache, file)
    {
      if rank in addressCache {
        return Some(addressCache[rank]);
      }
      var rest := file;
      var line := ScanLine(rest);
      found := None;
      while line.Some? && found.None?
        invariant line == ScanLine(rest)
        invariant found.None? ==> Find(Scan(rest), rank) == Find(Scan(file), rank)
        invariant found.Some? ==> found == Find(Scan(file), rank)
        decreases |rest|, found.None?
      {
        if line.value.value.rank == rank {
          found := Some(line.value.value.addr);
        } else {
          rest := line.value.rest;
          line := ScanLine(rest);
        }
      }
      FindExactly(Scan(file), rank, if found.Some? then found.value else "");
      if found.Some? {
        addressCache := addressCache[rank := found.value];
      }
    }
  }
}
