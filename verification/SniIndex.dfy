/** The index of TLS contexts by certificate name, and the server name matching rule that
    its two hash lookups implement. */
module SniIndex {
  import opened CursorList

  datatype CertCrypto = BestAvailable | Sha1Signature

  type Context = nat

  function LowerChar(c: char): char {
    if 'A' <= c <= 'Z' then (c as int + 32) as char else c
  }

  /** Names compare without regard to case. */
  function Lower(s: string): (r: string)
    ensures |r| == |s|
  {
    seq(|s|, i requires 0 <= i < |s| => LowerChar(s[i]))
  }

  // ---------------------------------------------------------------- inserting

  predicate IsWildcard(dn: string) {
    |dn| > 2 && dn[0] == '*' && dn[1] == '.'
  }

  /** The name under which a certificate name is filed: a wildcard without its star. */
  function Filed(dn: string): string {
    Lower(if IsWildcard(dn) then dn[1..] else dn)
  }

  /** strchr sees the name only up to its first NUL. */
  predicate StarIn(s: string) {
    s != "" && s[0] != '\0' && (s[0] == '*' || StarIn(s[1..]))
  }

  predicate Accepted(dn: string) {
    var name := if IsWildcard(dn) then dn[1..] else dn;
    && !(|dn| > 2 && dn[0] == '*' && dn[1] != '.')
    && name != "."
    && !StarIn(name)
  }

  type DnMap = map<(string, CertCrypto), Context>

  function InsertIntoDnMap(m: DnMap, key: (string, CertCrypto), ctx: Context, overwrite: bool): DnMap {
    if key !in m then m[key := ctx]
    else if m[key] == ctx then m
    else if overwrite then m[key := ctx]
    else m
  }

  function InsertByDomainName(m: DnMap, dn: string, ctx: Context, crypto: CertCrypto): DnMap {
    if !Accepted(dn) then m
    else
      var m1 := InsertIntoDnMap(m, (Filed(dn), crypto), ctx, true);
      if crypto != BestAvailable then InsertIntoDnMap(m1, (Filed(dn), BestAvailable), ctx, false) else m1
  }

  // ---------------------------------------------------------------- looking up

  /** The host name from its first dot on. */
  function Suffix(host: string): Option<string> {
    if host == "" then None else if host[0] == '.' then Some(host) else Suffix(host[1..])
  }

  function LookUp(m: DnMap, name: string, crypto: CertCrypto): Option<Context> {
    if (name, crypto) in m then Some(m[(name, crypto)]) else None
  }

  function Get(m: DnMap, name: string, crypto: CertCrypto): Option<Context> {
    LookUp(m, Lower(name), crypto)
  }

  function GetSSLCtx(m: DnMap, host: string, crypto: CertCrypto): Option<Context> {
    var exact := Get(m, host, crypto);
    if exact.Some? then exact
    else if Suffix(host).Some? then Get(m, Suffix(host).value, crypto)
    else None
  }

  class SSLContextManager {
    var dnMap: DnMap

    constructor ()
      ensures dnMap == map[]
    {
      dnMap := map[];
    }

    method Put(key: (string, CertCrypto), ctx: Context, overwrite: bool)
      modifies this
      ensures dnMap == InsertIntoDnMap(old(dnMap), key, ctx, overwrite)
    {
      if key !in dnMap || (dnMap[key] != ctx && overwrite) {
        dnMap := dnMap[key := ctx];
      }
    }

    /** Returns whether the name was accepted. */
    method InsertSSLCtxByDomainName(dn: string, ctx: Context, crypto: CertCrypto) returns (ok: bool)
      modifies this
      ensures ok <==> Accepted(dn)
      ensures dnMap == InsertByDomainName(old(dnMap), dn, ctx, crypto)
    {
      var name := dn;
      if |dn| > 2 && dn[0] == '*' {
        if dn[1] != '.' { return false; }
        name := dn[1..];
      }
      if name == "." || StarIn(name) { return false; }
      Put((Lower(name), crypto), ctx, true);
      if crypto != BestAvailable { Put((Lower(name), BestAvailable), ctx, false); }
      ok := true;
    }
  }

  // ---------------------------------------------------------------- the rule

  datatype Insertion = Insertion(dn: string, ctx: Context, crypto: CertCrypto)

  function Indexed(log: seq<Insertion>): DnMap {
    if log == [] then map[]
    else
      var e := log[|log| - 1];
      InsertByDomainName(Indexed(log[..|log| - 1]), e.dn, e.ctx, e.crypto)
  }

  predicate ExactName(dn: string, host: string) {
    !IsWildcard(dn) && Lower(dn) == Lower(host)
  }

  /** A wildcard stands for exactly one leading label. */
  ghost predicate Covers(dn: string, host: string) {
    IsWildcard(dn) && exists k: nat :: LabelEnds(host, k) && Lower(dn[1..]) == Lower(host[k..])
  }

  /** The first label of `host` ends at position `k`. */
  predicate LabelEnds(host: string, k: nat) {
    k < |host| && host[k] == '.' && forall i :: 0 <= i < k ==> host[i] != '.'
  }

  /** The last marked insertion of the given crypto, or -1. */
  function Last(log: seq<Insertion>, mark: seq<bool>, crypto: CertCrypto): (i: int)
    requires |mark| == |log|
    ensures -1 <= i < |log|
    ensures i >= 0 ==> mark[i] && log[i].crypto == crypto
    ensures forall j :: i < j < |log| ==> !(mark[j] && log[j].crypto == crypto)
  {
    var n := |log|;
    if n == 0 then -1
    else if mark[n - 1] && log[n - 1].crypto == crypto then n - 1
    else Last(log[..n - 1], mark[..n - 1], crypto)
  }

  /** The first marked insertion of the given crypto, or -1. */
  function First(log: seq<Insertion>, mark: seq<bool>, crypto: CertCrypto): (i: int)
    requires |mark| == |log|
    ensures -1 <= i < |log|
    ensures i >= 0 ==> mark[i] && log[i].crypto == crypto
    ensures forall j :: 0 <= j < (if i < 0 then |log| else i) ==> !(mark[j] && log[j].crypto == crypto)
  {
    var n := |log|;
    if n == 0 then -1
    else
      var i := First(log[..n - 1], mark[..n - 1], crypto);
      if i >= 0 then i else if mark[n - 1] && log[n - 1].crypto == crypto then n - 1 else -1
  }

  /** Among the marked insertions: the last weak one if a weak one was asked for; otherwise
      the last best one, or failing that the first weak one. */
  function Winner(log: seq<Insertion>, mark: seq<bool>, crypto: CertCrypto): (w: int)
    requires |mark| == |log|
    ensures -1 <= w < |log| && (w >= 0 ==> mark[w])
  {
    var i := Last(log, mark, crypto);
    if i >= 0 || crypto != BestAvailable then i else First(log, mark, Sha1Signature)
  }

  function Pick(log: seq<Insertion>, mark: seq<bool>, crypto: CertCrypto): Option<Context>
    requires |mark| == |log|
  {
    var w := Winner(log, mark, crypto);
    if w >= 0 then Some(log[w].ctx) else None
  }

  function FiledAs(log: seq<Insertion>, name: string): (mark: seq<bool>)
    ensures |mark| == |log|
  {
    seq(|log|, i requires 0 <= i < |log| => Accepted(log[i].dn) && Filed(log[i].dn) == name)
  }

  /** What one more insertion makes of an entry. */
  function Next(entry: Option<Context>, mark: bool, e: Insertion, crypto: CertCrypto): Option<Context> {
    if mark && (e.crypto == crypto || (crypto == BestAvailable && entry.None?)) then Some(e.ctx) else entry
  }

  lemma InsertionChanges(m: DnMap, e: Insertion, name: string, crypto: CertCrypto)
    ensures LookUp(InsertByDomainName(m, e.dn, e.ctx, e.crypto), name, crypto)
         == Next(LookUp(m, name, crypto), Accepted(e.dn) && Filed(e.dn) == name, e, crypto)
  {}

  lemma PickChanges(log: seq<Insertion>, mark: seq<bool>, crypto: CertCrypto)
    requires |mark| == |log| > 0
    ensures var n := |log| - 1;
            Pick(log, mark, crypto) == Next(Pick(log[..n], mark[..n], crypto), mark[n], log[n], crypto)
  {
    var n := |log| - 1;
    var i, j := Last(log[..n], mark[..n], crypto), First(log[..n], mark[..n], Sha1Signature);
    assert i >= 0 ==> log[..n][i] == log[i];
    assert j >= 0 ==> log[..n][j] == log[j];
  }

  /** After any insertions the entry of a name is the one the rule picks. */
  lemma {:induction false} EntriesArePicked(log: seq<Insertion>, name: string, crypto: CertCrypto)
    ensures LookUp(Indexed(log), name, crypto) == Pick(log, FiledAs(log, name), crypto)
  {
    if log != [] {
      var n := |log| - 1;
      EntriesArePicked(log[..n], name, crypto);
      InsertionChanges(Indexed(log[..n]), log[n], name, crypto);
      PickChanges(log, FiledAs(log, name), crypto);
      assert FiledAs(log, name)[..n] == FiledAs(log[..n], name);
    }
  }

  // ---------------------------------------------------------------- the two lookups

  predicate LeadingDot(s: string) {
    s != "" && s[0] == '.'
  }

  lemma LowerAt(s: string, i: nat)
    requires i < |s|
    ensures Lower(s)[i] == LowerChar(s[i])
    ensures Lower(s)[i] == '.' <==> s[i] == '.'
  {}

  lemma {:induction false} SuffixIsFromFirstDot(host: string)
    ensures Suffix(host).None? ==> forall k :: 0 <= k < |host| ==> host[k] != '.'
    ensures Suffix(host).Some? ==>
              var k := |host| - |Suffix(host).value|; 0 <= k && LabelEnds(host, k) && Suffix(host).value == host[k..]
  {
    if host != "" && host[0] != '.' {
      SuffixIsFromFirstDot(host[1..]);
      if Suffix(host).Some? {
        var k := |host[1..]| - |Suffix(host).value|;
        assert host[1..][k..] == host[k + 1..];
      } else {
        forall k | 0 <= k < |host| ensures host[k] != '.' {
          if k > 0 { assert host[1..][k - 1] == host[k]; }
        }
      }
    }
  }

  /** A name that starts with a dot is filed like a wildcard: this one lies where a wildcard
      for `host` would. */
  predicate Intrudes(dn: string, host: string) {
    LeadingDot(dn) && Suffix(host).Some? && Lower(dn) == Lower(Suffix(host).value)
  }

  /** What the first lookup finds is a name of the host, or, for a host that starts with a dot
      itself, also what the second one would find. */
  lemma FiledExactly(dn: string, host: string)
    ensures Filed(dn) == Lower(host) <==> ExactName(dn, host) || (LeadingDot(host) && Covers(dn, host))
    ensures LeadingDot(host) && ExactName(dn, host) ==> Intrudes(dn, host)
  {
    SuffixIsFromFirstDot(host);
    if host != "" { LowerAt(host, 0); }
    if dn != "" { LowerAt(dn, 0); }
    if IsWildcard(dn) {
      LowerAt(dn[1..], 0);
      if LeadingDot(host) {
        assert LabelEnds(host, 0) && host[0..] == host;
        forall k: nat | LabelEnds(host, k) ensures k == 0 {}
      }
    }
  }

  lemma FiledUnderSuffix(dn: string, host: string)
    requires Suffix(host).Some?
    ensures Filed(dn) == Lower(Suffix(host).value) <==> Covers(dn, host) || Intrudes(dn, host)
  {
    SuffixIsFromFirstDot(host);
    var suffix := Suffix(host).value;
    var k := |host| - |suffix|;
    LowerAt(suffix, 0);
    if dn != "" { LowerAt(dn, 0); }
    forall j: nat | LabelEnds(host, j) ensures j == k {
      assert host[j] == '.' && host[k] == '.';
    }
  }

  ghost function Exact(log: seq<Insertion>, host: string): (mark: seq<bool>)
    ensures |mark| == |log|
  {
    seq(|log|, i requires 0 <= i < |log| => Accepted(log[i].dn) && ExactName(log[i].dn, host))
  }

  ghost function Covering(log: seq<Insertion>, host: string): (mark: seq<bool>)
    ensures |mark| == |log|
  {
    seq(|log|, i requires 0 <= i < |log| => Accepted(log[i].dn) && Covers(log[i].dn, host))
  }

  /** The matching rule: an exact name if any insertion had one, else a wildcard covering
      exactly one leading label. */
  ghost function Rule(log: seq<Insertion>, host: string, crypto: CertCrypto): Option<Context> {
    var exact := Pick(log, Exact(log, host), crypto);
    if exact.Some? then exact else Pick(log, Covering(log, host), crypto)
  }

  ghost predicate NoIntruder(log: seq<Insertion>, host: string) {
    forall i :: 0 <= i < |log| && Accepted(log[i].dn) ==> !Intrudes(log[i].dn, host)
  }

  lemma PickNone(log: seq<Insertion>, mark: seq<bool>, crypto: CertCrypto)
    requires |mark| == |log| && forall i :: 0 <= i < |mark| ==> !mark[i]
    ensures Pick(log, mark, crypto) == None
  {}

  lemma CoveringIsFiled(log: seq<Insertion>, host: string)
    requires NoIntruder(log, host)
    ensures Suffix(host).Some? ==> FiledAs(log, Lower(Suffix(host).value)) == Covering(log, host)
    ensures Suffix(host).None? ==> forall i :: 0 <= i < |log| ==> !Covering(log, host)[i]
  {
    SuffixIsFromFirstDot(host);
    if Suffix(host).Some? {
      forall i | 0 <= i < |log|
        ensures FiledAs(log, Lower(Suffix(host).value))[i] == Covering(log, host)[i]
      {
        FiledUnderSuffix(log[i].dn, host);
      }
    }
  }

  lemma ExactIsFiled(log: seq<Insertion>, host: string)
    requires NoIntruder(log, host)
    ensures FiledAs(log, Lower(host)) == if LeadingDot(host) then Covering(log, host) else Exact(log, host)
    ensures LeadingDot(host) ==> forall i :: 0 <= i < |log| ==> !Exact(log, host)[i]
  {
    forall i | 0 <= i < |log| ensures FiledAs(log, Lower(host))[i] ==
                                      if LeadingDot(host) then Covering(log, host)[i] else Exact(log, host)[i]
    {
      FiledExactly(log[i].dn, host);
    }
    forall i | 0 <= i < |log| && LeadingDot(host) ensures !Exact(log, host)[i] {
      FiledExactly(log[i].dn, host);
    }
  }

  /** For every host and any insertions the two hash lookups are the rule, as long as no name
      that starts with a dot lies where a wildcard for the host would. */
  lemma LookupIsTheRule(log: seq<Insertion>, host: string, crypto: CertCrypto)
    requires NoIntruder(log, host)
    ensures GetSSLCtx(Indexed(log), host, crypto) == Rule(log, host, crypto)
  {
    EntriesArePicked(log, Lower(host), crypto);
    ExactIsFiled(log, host);
    CoveringIsFiled(log, host);
    if LeadingDot(host) { PickNone(log, Exact(log, host), crypto); }
    if Suffix(host).Some? {
      EntriesArePicked(log, Lower(Suffix(host).value), crypto);
    } else {
      PickNone(log, Covering(log, host), crypto);
    }
  }

  /** The insertions found under the host's suffix: wildcards for it, and names with a dot. */
  ghost function Under(log: seq<Insertion>, host: string): (mark: seq<bool>)
    ensures |mark| == |log|
  {
    seq(|log|, i requires 0 <= i < |log| =>
          Accepted(log[i].dn) && (Covers(log[i].dn, host) || Intrudes(log[i].dn, host)))
  }

  lemma UnderIsFiled(log: seq<Insertion>, host: string)
    ensures Suffix(host).Some? ==> FiledAs(log, Lower(Suffix(host).value)) == Under(log, host)
    ensures Suffix(host).None? ==> forall i :: 0 <= i < |log| ==> !Under(log, host)[i]
  {
    SuffixIsFromFirstDot(host);
    if Suffix(host).Some? {
      forall i | 0 <= i < |log| ensures FiledAs(log, Lower(Suffix(host).value))[i] == Under(log, host)[i] {
        FiledUnderSuffix(log[i].dn, host);
      }
    }
  }

  /** What is found under the host itself: for a host that starts with a dot, the same. */
  lemma HostIsFiled(log: seq<Insertion>, host: string)
    ensures FiledAs(log, Lower(host)) == if LeadingDot(host) then Under(log, host) else Exact(log, host)
    ensures LeadingDot(host) ==> forall i :: 0 <= i < |log| ==>
              (Under(log, host)[i] <==> Exact(log, host)[i] || Covering(log, host)[i])
  {
    forall i | 0 <= i < |log|
      ensures FiledAs(log, Lower(host))[i] == if LeadingDot(host) then Under(log, host)[i] else Exact(log, host)[i]
      ensures LeadingDot(host) ==> (Under(log, host)[i] <==> Exact(log, host)[i] || Covering(log, host)[i])
    {
      FiledExactly(log[i].dn, host);
      if LeadingDot(host) && Intrudes(log[i].dn, host) { IntruderIsExact(log[i].dn, host); }
    }
  }

  lemma IntruderIsExact(dn: string, host: string)
    requires LeadingDot(host) && Intrudes(dn, host)
    ensures ExactName(dn, host)
  {}

  /** Fewer marks: without a winner there is none, and a winner that stays marked stays. */
  lemma WinnerAmongFewer(log: seq<Insertion>, mark: seq<bool>, fewer: seq<bool>, crypto: CertCrypto)
    requires |mark| == |fewer| == |log| && forall i :: 0 <= i < |log| ==> fewer[i] ==> mark[i]
    ensures var w := Winner(log, mark, crypto);
            (w < 0 ==> Winner(log, fewer, crypto) < 0) && (w >= 0 && fewer[w] ==> Winner(log, fewer, crypto) == w)
  {}

  /** The lookups disagree with the rule exactly if the insertion that wins the host's suffix is
      not the one the rule chooses, and differs from it: for a host without a leading dot, if
      nothing has its exact name and a name with a dot has taken a wildcard's place; for one
      with a leading dot, if a wildcard has taken the place of its exact name. */
  lemma LookupIsTheRuleIff(log: seq<Insertion>, host: string, crypto: CertCrypto)
    ensures var exact, w := Pick(log, Exact(log, host), crypto), Winner(log, Under(log, host), crypto);
            GetSSLCtx(Indexed(log), host, crypto) == Rule(log, host, crypto) <==>
            || w < 0
            || if LeadingDot(host) then exact.Some? ==> exact == Some(log[w].ctx)
               else
                 || exact.Some? || Covers(log[w].dn, host)
                 || Pick(log, Covering(log, host), crypto) == Some(log[w].ctx)
  {
    EntriesArePicked(log, Lower(host), crypto);
    HostIsFiled(log, host);
    UnderIsFiled(log, host);
    WinnerAmongFewer(log, Under(log, host), Covering(log, host), crypto);
    if LeadingDot(host) { WinnerAmongFewer(log, Under(log, host), Exact(log, host), crypto); }
    if Suffix(host).Some? {
      EntriesArePicked(log, Lower(Suffix(host).value), crypto);
    } else {
      PickNone(log, Under(log, host), crypto);
    }
    DotHasSuffix(host);
  }

  lemma DotHasSuffix(host: string)
    ensures LeadingDot(host) ==> Suffix(host) == Some(host)
  {}

  /** Inserted after a wildcard for the host, a name with a dot takes its place. */
  lemma IntruderTakesOver(wild: string, dotted: string, host: string, a: Context, b: Context)
    requires Accepted(wild) && Covers(wild, host) && Accepted(dotted) && Intrudes(dotted, host) && !LeadingDot(host)
    ensures var log := [Insertion(wild, a, BestAvailable), Insertion(dotted, b, BestAvailable)];
            && GetSSLCtx(Indexed(log), host, BestAvailable) == Some(b)
            && Rule(log, host, BestAvailable) == Some(a)
  {
    var log := [Insertion(wild, a, BestAvailable), Insertion(dotted, b, BestAvailable)];
    FiledExactly(dotted, host);
    IntruderIsNoMatch(dotted, host);
    EntriesArePicked(log, Lower(host), BestAvailable);
    EntriesArePicked(log, Lower(Suffix(host).value), BestAvailable);
    HostIsFiled(log, host);
    UnderIsFiled(log, host);
    PickNone(log, Exact(log, host), BestAvailable);
  }

  lemma IntruderIsNoMatch(dn: string, host: string)
    requires Intrudes(dn, host) && !LeadingDot(host)
    ensures !Covers(dn, host) && !ExactName(dn, host)
  {
    LowerAt(dn, 0);
    if host != "" { LowerAt(host, 0); }
  }

  /** Such names. */
  lemma IntruderExample()
    ensures Accepted("*.a.c") && Covers("*.a.c", "x.a.c") && Accepted(".a.c") && Intrudes(".a.c", "x.a.c")
  {
    var host, wild := "x.a.c", "*.a.c";
    assert LabelEnds(host, 1) && host[1..] == ".a.c" && wild[1..] == ".a.c";
    assert Suffix(host) == Some(host[1..]);
  }

  // ---------------------------------------------------------------- names

  /** Which certificate names are accepted: those whose only star, as far as strchr looks, is that
      of a leading "*.", except a lone dot. */
  lemma AcceptedIff(dn: string)
    ensures Accepted(dn) <==>
            && dn != "."
            && forall i: nat :: i < |dn| && dn[i] == '*' && '\0' !in dn[..i] ==>
                 i == 0 && |dn| > 2 && dn[1] == '.'
  {
    StarInIff(dn);
    if IsWildcard(dn) {
      StarInIff(dn[1..]);
      forall i: nat | 0 < i < |dn| ensures dn[1..][i - 1] == dn[i] && ('\0' in dn[..i] <==> '\0' in dn[1..][..i - 1]) {
        assert dn[..i] == [dn[0]] + dn[1..][..i - 1];
      }
    } else if |dn| > 0 && dn[0] == '*' {
      assert '\0' !in dn[..0];
    }
  }

  lemma {:induction false} StarInIff(s: string)
    ensures StarIn(s) <==> exists i: nat :: i < |s| && s[i] == '*' && '\0' !in s[..i]
  {
    if s != "" {
      StarInIff(s[1..]);
      if i: nat :| i < |s[1..]| && s[1..][i] == '*' && '\0' !in s[1..][..i] {
        assert s[..i + 1] == [s[0]] + s[1..][..i] && s[i + 1] == '*';
      }
      if i: nat :| i < |s| && s[i] == '*' && '\0' !in s[..i] {
        if i > 0 { assert s[..i] == [s[0]] + s[1..][..i - 1] && s[1..][i - 1] == '*'; }
      }
      if s[0] == '*' { assert '\0' !in s[..0]; }
    }
  }

  const UPPER := "ABCDEFGHIJKLMNOPQRSTUVWXYZ"
  const LOWER := "abcdefghijklmnopqrstuvwxyz"

  /** The same letter, in either case. */
  ghost predicate SameLetter(a: char, b: char) {
    a == b || exists i :: 0 <= i < 26 && a in {UPPER[i], LOWER[i]} && b in {UPPER[i], LOWER[i]}
  }

  ghost predicate SameButForCase(a: string, b: string) {
    |a| == |b| && forall i :: 0 <= i < |a| ==> SameLetter(a[i], b[i])
  }

  lemma Alphabet(i: nat)
    requires i < 26
    ensures UPPER[i] as int == 'A' as int + i && LOWER[i] as int == 'a' as int + i
  {}

  lemma SameLetterIff(a: char, b: char)
    ensures LowerChar(a) == LowerChar(b) <==> SameLetter(a, b)
  {
    forall i | 0 <= i < 26 ensures UPPER[i] as int == 'A' as int + i && LOWER[i] as int == 'a' as int + i {
      Alphabet(i);
    }
    if LowerChar(a) == LowerChar(b) && a != b {
      var i := LowerChar(a) as int - 'a' as int;
      assert a in {UPPER[i], LOWER[i]} && b in {UPPER[i], LOWER[i]};
    }
  }

  /** Names are filed and looked up alike exactly if they differ in nothing but the case of ASCII
      letters. */
  lemma FiledAlikeIff(a: string, b: string)
    ensures Lower(a) == Lower(b) <==> SameButForCase(a, b)
  {
    forall i | 0 <= i < |a| && |a| == |b| ensures Lower(a)[i] == Lower(b)[i] <==> SameLetter(a[i], b[i]) {
      SameLetterIff(a[i], b[i]);
    }
    if Lower(a) == Lower(b) { assert |Lower(a)| == |a| && |Lower(b)| == |b|; }
  }

  /** So hosts that do get the same context. */
  lemma CaseDoesNotMatter(m: DnMap, a: string, b: string, crypto: CertCrypto)
    requires SameButForCase(a, b)
    ensures GetSSLCtx(m, a, crypto) == GetSSLCtx(m, b, crypto)
  {
    FiledAlikeIff(a, b);
    SuffixIgnoresCase(a, b);
  }

  lemma {:induction false} SuffixIgnoresCase(a: string, b: string)
    requires Lower(a) == Lower(b)
    ensures match (Suffix(a), Suffix(b))
            case (Some(x), Some(y)) => Lower(x) == Lower(y)
            case (None, None) => true
            case _ => false
  {
    assert |Lower(a)| == |a| && |Lower(b)| == |b|;
    if a != "" {
      LowerAt(a, 0);
      LowerAt(b, 0);
      assert Lower(a[1..]) == Lower(a)[1..] && Lower(b[1..]) == Lower(b)[1..];
      SuffixIgnoresCase(a[1..], b[1..]);
    }
  }
}
