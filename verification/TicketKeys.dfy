/** TLS session ticket keys: key names and sources derived from seeds, and what a rotation
    of the seeds does to tickets already issued. */
module TicketKeys {
  import opened CursorList
  import opened Bytes

  type Text = seq<Byte>

  /** SHA-256, about which nothing is assumed. */
  type Hash = Text -> Text

  // ---------------------------------------------------------------- seeds

  function HexDigit(c: char): Option<int> {
    if '0' <= c <= '9' then Some(c as int - '0' as int)
    else if 'a' <= c <= 'f' then Some(c as int - 'a' as int + 10)
    else if 'A' <= c <= 'F' then Some(c as int - 'A' as int + 10)
    else None
  }

  function Unhexlify(h: string): Option<Text> {
    if h == "" then Some([])
    else if |h| == 1 then None
    else
      match (HexDigit(h[0]), HexDigit(h[1]), Unhexlify(h[2..]))
      case (Some(a), Some(b), Some(rest)) => Some([(16 * a + b) % 256] + rest)
      case _ => None
  }

  function HexChar(d: nat): char
    requires d < 16
  {
    if d < 10 then ('0' as int + d) as char else ('a' as int + d - 10) as char
  }

  /** folly::hexlify. */
  function Hexlify(bytes: Text): string {
    if bytes == [] then "" else [HexChar(bytes[0] / 16), HexChar(bytes[0] % 16)] + Hexlify(bytes[1..])
  }

  /** Any bytes can be written as a seed and are read back. */
  lemma {:induction false} SeedRoundTrip(bytes: Text)
    ensures Unhexlify(Hexlify(bytes)) == Some(bytes)
  {
    if bytes != [] {
      var h := Hexlify(bytes);
      SeedRoundTrip(bytes[1..]);
      assert h[2..] == Hexlify(bytes[1..]);
      assert HexDigit(h[0]) == Some(bytes[0] / 16) && HexDigit(h[1]) == Some(bytes[0] % 16);
      assert (16 * (bytes[0] / 16) + bytes[0] % 16) % 256 == bytes[0] && bytes == [bytes[0]] + bytes[1..];
    }
  }

  /** A seed decodes exactly if it is made of an even number of hexadecimal digits, and then to
      half as many bytes. */
  lemma {:induction false} DecodesIff(h: string)
    ensures Unhexlify(h).Some? <==> |h| % 2 == 0 && forall c :: c in h ==> c in "0123456789abcdefABCDEF"
    ensures Unhexlify(h).Some? ==> 2 * |Unhexlify(h).value| == |h|
  {
    if |h| >= 2 {
      DecodesIff(h[2..]);
      HexDigitIff(h[0]);
      HexDigitIff(h[1]);
      assert h == [h[0], h[1]] + h[2..];
    } else if |h| == 1 {
      assert h[0] in h;
    }
  }

  lemma HexDigitIff(c: char)
    ensures HexDigit(c).Some? <==> c in "0123456789abcdefABCDEF"
  {
    var digits := "0123456789abcdefABCDEF";
    if HexDigit(c).Some? {
      var d := HexDigit(c).value;
      assert digits[if 'A' <= c <= 'F' then d + 6 else d] == c;
    }
  }

  datatype Seeds = Seeds(oldSeeds: seq<string>, currentSeeds: seq<string>, newSeeds: seq<string>)

  predicate AreSeedsSubset(lhs: seq<string>, rhs: seq<string>) {
    |lhs| <= |rhs| && forall h :: h in lhs ==> h in rhs
  }

  predicate IsEmpty(s: Seeds) {
    s.oldSeeds == [] && s.currentSeeds == [] && s.newSeeds == []
  }

  predicate IsNotEmpty(s: Seeds) {
    s.oldSeeds != [] && s.currentSeeds != [] && s.newSeeds != []
  }

  predicate IsValidRotation(s: Seeds, next: Seeds) {
    || (IsEmpty(s) && IsNotEmpty(next))
    || (AreSeedsSubset(s.newSeeds, next.currentSeeds) && AreSeedsSubset(s.currentSeeds, next.oldSeeds))
    || (AreSeedsSubset(s.oldSeeds, next.oldSeeds) && AreSeedsSubset(s.currentSeeds, next.currentSeeds)
        && AreSeedsSubset(s.newSeeds, next.newSeeds))
  }

  // ---------------------------------------------------------------- keys

  datatype SeedType = Old | Current | New

  datatype Key = Key(name: Text, source: Text, seedType: SeedType)

  /** The first four bytes of the hash of the seed's name and the hash count, which is 1. */
  function KeyName(sha: Hash, seed: Text): Text {
    var digest := sha(sha(seed) + [1, 0, 0, 0]);
    if |digest| >= 4 then digest[..4] else digest
  }

  function MakeKey(sha: Hash, seed: Text, t: SeedType): Key {
    Key(KeyName(sha, seed), sha(seed), t)
  }

  datatype Manager = Manager(keys: map<Text, Key>, active: seq<Key>)

  const NoKeys := Manager(map[], [])

  /** insertNewKey: an existing key of the same name stays; whichever key now has the name
      is active if it is a current one. */
  function InsertKey(m: Manager, key: Key): Manager {
    var keys := if key.name in m.keys then m.keys else m.keys[key.name := key];
    var there := keys[key.name];
    Manager(keys, if there.seedType == Current then m.active + [there] else m.active)
  }

  function InsertAll(m: Manager, ks: seq<Key>): Manager
    decreases |ks|
  {
    if ks == [] then m else InsertKey(InsertAll(m, ks[..|ks| - 1]), ks[|ks| - 1])
  }

  /** The keys of a list of seeds; seeds that do not decode are skipped. */
  function KeysOf(sha: Hash, hs: seq<string>, t: SeedType): seq<Key>
    decreases |hs|
  {
    if hs == [] then []
    else
      var front, seed := KeysOf(sha, hs[..|hs| - 1], t), Unhexlify(hs[|hs| - 1]);
      if seed.Some? then front + [MakeKey(sha, seed.value, t)] else front
  }

  /** The old seeds are inserted first, then the current, then the new ones. */
  function Load(sha: Hash, s: Seeds): Manager {
    InsertAll(InsertAll(InsertAll(NoKeys, KeysOf(sha, s.oldSeeds, Old)), KeysOf(sha, s.currentSeeds, Current)),
              KeysOf(sha, s.newSeeds, New))
  }

  /** What setTLSTicketKeySeeds returns: whether tickets are handled at all. */
  predicate Usable(m: Manager) {
    |m.keys| > 0 && |m.active| > 0
  }

  /** The key protecting one ticket, from its key's source and the ticket's salt. */
  function UniqueKey(sha: Hash, source: Text, salt: Text): Text {
    sha(source + salt)
  }

  class TLSTicketKeyManager {
    var ticketKeys: map<Text, Key>
    var activeKeys: seq<Key>

    constructor ()
      ensures Manager(ticketKeys, activeKeys) == NoKeys
    {
      ticketKeys, activeKeys := map[], [];
    }

    method InsertNewKey(key: Key)
      modifies this
      ensures Manager(ticketKeys, activeKeys) == InsertKey(Manager(old(ticketKeys), old(activeKeys)), key)
    {
      if key.name !in ticketKeys { ticketKeys := ticketKeys[key.name := key]; }
      var there := ticketKeys[key.name];
      if there.seedType == Current { activeKeys := activeKeys + [there]; }
    }

    method InsertSeedList(sha: Hash, hs: seq<string>, t: SeedType)
      modifies this
      ensures Manager(ticketKeys, activeKeys) ==
              InsertAll(Manager(old(ticketKeys), old(activeKeys)), KeysOf(sha, hs, t))
    {
      var i := 0;
      while i < |hs|
        invariant i <= |hs|
        invariant Manager(ticketKeys, activeKeys) ==
                  InsertAll(Manager(old(ticketKeys), old(activeKeys)), KeysOf(sha, hs[..i], t))
      {
        assert hs[..i + 1][..i] == hs[..i];
        ghost var ks := KeysOf(sha, hs[..i], t);
        assert forall k: Key :: (ks + [k])[..|ks|] == ks;
        var seed := Unhexlify(hs[i]);
        if seed.Some? { InsertNewKey(MakeKey(sha, seed.value, t)); }
        i := i + 1;
      }
      assert hs[..|hs|] == hs;
    }

    method SetTLSTicketKeySeeds(sha: Hash, s: Seeds) returns (ok: bool)
      modifies this
      ensures Manager(ticketKeys, activeKeys) == Load(sha, s)
      ensures ok <==> Usable(Load(sha, s))
    {
      ticketKeys, activeKeys := map[], [];
      InsertSeedList(sha, s.oldSeeds, Old);
      InsertSeedList(sha, s.currentSeeds, Current);
      InsertSeedList(sha, s.newSeeds, New);
      ok := |ticketKeys| > 0 && |activeKeys| > 0;
    }
  }

  // ---------------------------------------------------------------- what the map holds

  /** Entries made before stay, every inserted key's name has an entry, and a new entry is
      one of the inserted keys under its own name. */
  ghost predicate Extends(m: Manager, m': Manager, ks: seq<Key>) {
    && (forall n :: n in m.keys ==> n in m'.keys && m'.keys[n] == m.keys[n])
    && (forall k :: k in ks ==> k.name in m'.keys)
    && (forall n :: n in m'.keys && n !in m.keys ==> m'.keys[n] in ks && m'.keys[n].name == n)
  }

  lemma {:induction false} InsertAllExtends(m: Manager, ks: seq<Key>)
    ensures Extends(m, InsertAll(m, ks), ks)
    decreases |ks|
  {
    if ks != [] {
      var front := ks[..|ks| - 1];
      InsertAllExtends(m, front);
      assert ks == front + [ks[|ks| - 1]];
    }
  }

  /** Active keys are current keys that hold their own name. */
  ghost predicate ActiveOk(m: Manager) {
    && (forall k :: k in m.active ==> k.seedType == Current && k.name in m.keys && m.keys[k.name] == k)
    && (forall n :: n in m.keys ==> m.keys[n].name == n)
  }

  /** Inserting `ks` into `m` may have made `m'`: active keys stay, new ones come from `ks`,
      and a name in `ks` held by a current key is active. */
  ghost predicate Activates(m: Manager, m': Manager, ks: seq<Key>) {
    && ActiveOk(m') && (forall k :: k in m.active ==> k in m'.active)
    && (forall k :: k in m'.active ==> k in m.active || k.name in NamesOf(ks))
    && (forall k :: k in ks && k.name in m'.keys && m'.keys[k.name].seedType == Current ==>
          m'.keys[k.name] in m'.active)
  }

  lemma InsertKeyActive(m: Manager, m1: Manager, ks: seq<Key>, last: Key)
    requires Activates(m, m1, ks) && Extends(m, m1, ks)
    ensures Activates(m, InsertKey(m1, last), ks + [last])
  {
    var m' := InsertKey(m1, last);
    assert NamesOf(ks + [last]) == NamesOf(ks) + {last.name};
    forall k | k in ks + [last] && k.name in m'.keys && m'.keys[k.name].seedType == Current
      ensures m'.keys[k.name] in m'.active
    {
      if k.name != last.name { assert k in ks; }
    }
  }

  lemma {:induction false} InsertAllActive(m: Manager, ks: seq<Key>)
    requires ActiveOk(m)
    ensures Activates(m, InsertAll(m, ks), ks)
    decreases |ks|
  {
    if ks != [] {
      var front, last := ks[..|ks| - 1], ks[|ks| - 1];
      InsertAllActive(m, front);
      InsertAllExtends(m, front);
      InsertKeyActive(m, InsertAll(m, front), front, last);
      assert ks == front + [last];
    }
  }

  function NamesOf(ks: seq<Key>): set<Text> {
    set k | k in ks :: k.name
  }

  lemma {:induction false} KeysOfSeeds(sha: Hash, hs: seq<string>, t: SeedType, k: Key)
    ensures k in KeysOf(sha, hs, t) <==>
            exists h :: h in hs && Unhexlify(h).Some? && k == MakeKey(sha, Unhexlify(h).value, t)
    decreases |hs|
  {
    if hs != [] {
      var front, last := hs[..|hs| - 1], hs[|hs| - 1];
      KeysOfSeeds(sha, front, t, k);
      assert forall h :: h in hs <==> h in front || h == last by { assert hs == front + [last]; }
      if k in KeysOf(sha, hs, t) && k !in KeysOf(sha, front, t) { assert last in hs; }
    }
  }

  // ---------------------------------------------------------------- loading

  /** The seed of `h` decodes and its key is named `n`. */
  predicate Named(sha: Hash, h: string, n: Text) {
    Unhexlify(h).Some? && KeyName(sha, Unhexlify(h).value) == n
  }

  predicate NamesOneOf(sha: Hash, hs: seq<string>, n: Text) {
    exists h :: h in hs && Named(sha, h, n)
  }

  lemma KeyNames(sha: Hash, hs: seq<string>, t: SeedType, n: Text)
    ensures n in NamesOf(KeysOf(sha, hs, t)) <==> NamesOneOf(sha, hs, n)
    ensures forall k :: k in KeysOf(sha, hs, t) ==> k.seedType == t
  {
    forall k ensures k in KeysOf(sha, hs, t) <==>
                     exists h :: h in hs && Unhexlify(h).Some? && k == MakeKey(sha, Unhexlify(h).value, t)
    {
      KeysOfSeeds(sha, hs, t, k);
    }
    if NamesOneOf(sha, hs, n) {
      var h :| h in hs && Named(sha, h, n);
      assert MakeKey(sha, Unhexlify(h).value, t) in KeysOf(sha, hs, t);
    }
  }

  /** The manager in the three stages of a load. */
  lemma LoadStages(sha: Hash, s: Seeds) returns (m1: Manager, m2: Manager, m3: Manager)
    ensures m1 == InsertAll(NoKeys, KeysOf(sha, s.oldSeeds, Old)) && Extends(NoKeys, m1, KeysOf(sha, s.oldSeeds, Old))
    ensures m2 == InsertAll(m1, KeysOf(sha, s.currentSeeds, Current))
    ensures Extends(m1, m2, KeysOf(sha, s.currentSeeds, Current))
    ensures m3 == Load(sha, s) && Extends(m2, m3, KeysOf(sha, s.newSeeds, New))
    ensures ActiveOk(m1) && ActiveOk(m2) && ActiveOk(m3)
  {
    m1 := InsertAll(NoKeys, KeysOf(sha, s.oldSeeds, Old));
    m2 := InsertAll(m1, KeysOf(sha, s.currentSeeds, Current));
    m3 := Load(sha, s);
    InsertAllExtends(NoKeys, KeysOf(sha, s.oldSeeds, Old));
    InsertAllExtends(m1, KeysOf(sha, s.currentSeeds, Current));
    InsertAllExtends(m2, KeysOf(sha, s.newSeeds, New));
    InsertAllActive(NoKeys, KeysOf(sha, s.oldSeeds, Old));
    InsertAllActive(m1, KeysOf(sha, s.currentSeeds, Current));
    InsertAllActive(m2, KeysOf(sha, s.newSeeds, New));
  }

  /** A key that encrypts comes from a current seed, and no old seed has its name. */
  lemma EncryptionKeyIsCurrent(sha: Hash, s: Seeds, k: Key)
    requires k in Load(sha, s).active
    ensures NamesOneOf(sha, s.currentSeeds, k.name) && !NamesOneOf(sha, s.oldSeeds, k.name)
    ensures exists h :: h in s.currentSeeds && Unhexlify(h).Some? && k == MakeKey(sha, Unhexlify(h).value, Current)
  {
    var m1, m2, m3 := LoadStages(sha, s);
    KeyNames(sha, s.oldSeeds, Old, k.name);
    KeyNames(sha, s.currentSeeds, Current, k.name);
    KeyNames(sha, s.newSeeds, New, k.name);
    assert m3.keys[k.name] == k;
    assert k.name in m2.keys && m2.keys[k.name] == k;
    assert k.name !in m1.keys;
    assert k in KeysOf(sha, s.currentSeeds, Current);
    KeysOfSeeds(sha, s.currentSeeds, Current, k);
  }

  /** Setting seeds succeeds exactly when some current seed decodes and no old seed has its
      key name; that other seeds fail to decode does not matter. */
  lemma UsableIff(sha: Hash, s: Seeds)
    ensures Usable(Load(sha, s)) <==>
            exists n :: NamesOneOf(sha, s.currentSeeds, n) && !NamesOneOf(sha, s.oldSeeds, n)
  {
    var m1, m2, m3 := LoadStages(sha, s);
    if Usable(m3) {
      EncryptionKeyIsCurrent(sha, s, m3.active[0]);
    }
    forall n | NamesOneOf(sha, s.currentSeeds, n) && !NamesOneOf(sha, s.oldSeeds, n) ensures Usable(m3) {
      KeyNames(sha, s.oldSeeds, Old, n);
      KeyNames(sha, s.currentSeeds, Current, n);
      var k :| k in KeysOf(sha, s.currentSeeds, Current) && k.name == n;
      assert n in m2.keys && n !in m1.keys;
      assert m2.keys[n] in KeysOf(sha, s.currentSeeds, Current);
      InsertAllActive(m1, KeysOf(sha, s.currentSeeds, Current));
      InsertAllActive(m2, KeysOf(sha, s.newSeeds, New));
      assert m2.keys[n] in m2.active && m2.keys[n] in m3.active;
      assert n in m3.keys;
    }
  }

  /** Every seed that decodes can decrypt, and what decrypts under a name was made from a
      seed with that name. */
  lemma DecryptionKeys(sha: Hash, s: Seeds, n: Text)
    ensures n in Load(sha, s).keys <==>
            NamesOneOf(sha, s.oldSeeds, n) || NamesOneOf(sha, s.currentSeeds, n) || NamesOneOf(sha, s.newSeeds, n)
    ensures n in Load(sha, s).keys ==>
              exists h :: h in s.oldSeeds + s.currentSeeds + s.newSeeds && Named(sha, h, n)
                          && Load(sha, s).keys[n].source == sha(Unhexlify(h).value)
  {
    var m1, m2, m3 := LoadStages(sha, s);
    KeyNames(sha, s.oldSeeds, Old, n);
    KeyNames(sha, s.currentSeeds, Current, n);
    KeyNames(sha, s.newSeeds, New, n);
    if n in m3.keys {
      var k := m3.keys[n];
      KeysOfSeeds(sha, s.oldSeeds, Old, k);
      KeysOfSeeds(sha, s.currentSeeds, Current, k);
      KeysOfSeeds(sha, s.newSeeds, New, k);
    }
  }

  // ---------------------------------------------------------------- rotation

  /** What counts as a valid rotation: anything after no seeds at all, nothing having changed, and
      every list moving up by one, with any new seeds. (So the source's own case for a first
      configuration adds nothing.) */
  lemma RotationsAreValid(s: Seeds, next: Seeds, newSeeds: seq<string>)
    ensures IsEmpty(s) ==> IsValidRotation(s, next)
    ensures IsValidRotation(s, s)
    ensures IsValidRotation(s, Seeds(s.currentSeeds, s.newSeeds, newSeeds))
  {}

  /** After a valid rotation every seed that may have issued a ticket is old or current. */
  lemma RotationKeepsSeeds(s: Seeds, next: Seeds, h: string)
    requires IsValidRotation(s, next) && h in s.currentSeeds
    ensures h in next.oldSeeds || h in next.currentSeeds
  {}

  /** Distinct seeds of the two configurations have distinct key names. */
  ghost predicate NoCollisions(sha: Hash, hs: seq<string>) {
    forall a, b, n :: a in hs && b in hs && Named(sha, a, n) && Named(sha, b, n) ==> Unhexlify(a) == Unhexlify(b)
  }

  function AllSeeds(s: Seeds): seq<string> {
    s.oldSeeds + s.currentSeeds + s.newSeeds
  }

  const NAME_LENGTH: nat := 4
  const SALT_LENGTH: nat := 12
  const DIGEST_LENGTH: nat := 32

  /** The hash has the length of its digest on the inputs in question. */
  ghost predicate IsSha(sha: Hash) {
    forall t: Text :: |sha(t)| == DIGEST_LENGTH
  }

  /** The keys that protect a ticket: the halves of the unique key. */
  datatype Protection = Protection(hmacKey: Text, aesKey: Text)

  function Halves(t: Text): Protection {
    Protection(t[..|t| / 2], t[|t| / 2..])
  }

  /** processTicket when encrypting under `key` with a fresh salt: what is written into the
      ticket, and the keys it is protected with. */
  function Issue(sha: Hash, key: Key, salt: Text): (Text, Protection) {
    (key.name + salt, Halves(UniqueKey(sha, key.source, salt)))
  }

  /** processTicket when decrypting: the keys for what a ticket carries. There are none if its key
      name is unknown, and none at all if the seeds leave no key to encrypt with, because then
      no ticket is looked at. */
  function Open(sha: Hash, s: Seeds, ticket: Text): Option<Protection>
    requires |ticket| == NAME_LENGTH + SALT_LENGTH
  {
    var m, name, salt := Load(sha, s), ticket[..NAME_LENGTH], ticket[NAME_LENGTH..];
    if Usable(m) && name in m.keys then Some(Halves(UniqueKey(sha, m.keys[name].source, salt))) else None
  }

  /** A key name is the first four bytes of the hash of the seed's hash and the number 1, as four
      bytes in little-endian order. */
  lemma KeyNameIs(sha: Hash, seed: Text)
    requires IsSha(sha)
    ensures KeyName(sha, seed) == sha(sha(seed) + WriteUint(1, 4, false))[..NAME_LENGTH]
  {
    assert ToLE(1, 4) == [1] + ([0] + ([0] + ([0] + ToLE(0, 0)))) == [1, 0, 0, 0];
  }

  lemma NameLength(sha: Hash, s: Seeds, k: Key)
    requires IsSha(sha) && k in Load(sha, s).active
    ensures |k.name| == NAME_LENGTH && |k.source| == DIGEST_LENGTH
  {
    EncryptionKeyIsCurrent(sha, s, k);
  }

  /** A ticket is opened with the keys it was issued with. */
  lemma IssuedIsOpened(sha: Hash, s: Seeds, k: Key, salt: Text)
    requires IsSha(sha) && k in Load(sha, s).active && |salt| == SALT_LENGTH
    ensures var (ticket, keys) := Issue(sha, k, salt);
            |ticket| == NAME_LENGTH + SALT_LENGTH && Open(sha, s, ticket) == Some(keys)
  {
    NameLength(sha, s, k);
    var m1, m2, m3 := LoadStages(sha, s);
    assert k.name in m3.keys && |m3.keys| > 0;
    assert (k.name + salt)[..NAME_LENGTH] == k.name && (k.name + salt)[NAME_LENGTH..] == salt;
  }

  /** Two tickets have the same keys exactly if they share key source and salt, where the hash
      does not collide. */
  lemma SameKeysIff(sha: Hash, a: Key, b: Key, saltA: Text, saltB: Text)
    requires IsSha(sha) && |a.source| == |b.source| == DIGEST_LENGTH
    requires sha(a.source + saltA) == sha(b.source + saltB) ==> a.source + saltA == b.source + saltB
    ensures Issue(sha, a, saltA).1 == Issue(sha, b, saltB).1 <==> a.source == b.source && saltA == saltB
  {
    var x, y := UniqueKey(sha, a.source, saltA), UniqueKey(sha, b.source, saltB);
    assert x == x[..16] + x[16..] && y == y[..16] + y[16..];
    var l, r := a.source + saltA, b.source + saltB;
    assert l == r ==> l[..DIGEST_LENGTH] == a.source && l[DIGEST_LENGTH..] == saltA;
    assert l == r ==> r[..DIGEST_LENGTH] == b.source && r[DIGEST_LENGTH..] == saltB;
  }

  /** A ticket issued before a valid rotation is still found by its key name afterwards, under
      the same key. */
  lemma RotationKeepsKeys(sha: Hash, s: Seeds, next: Seeds, k: Key)
    requires IsValidRotation(s, next) && NoCollisions(sha, AllSeeds(s) + AllSeeds(next))
    requires k in Load(sha, s).active
    ensures k.name in Load(sha, next).keys && Load(sha, next).keys[k.name].source == k.source
  {
    EncryptionKeyIsCurrent(sha, s, k);
    var h :| h in s.currentSeeds && Unhexlify(h).Some? && k == MakeKey(sha, Unhexlify(h).value, Current);
    RotationKeepsSeeds(s, next, h);
    assert Named(sha, h, k.name);
    DecryptionKeys(sha, next, k.name);
    var g :| g in AllSeeds(next) && Named(sha, g, k.name)
             && Load(sha, next).keys[k.name].source == sha(Unhexlify(g).value);
    assert h in AllSeeds(s) + AllSeeds(next) && g in AllSeeds(s) + AllSeeds(next);
  }

  /** So it is opened as before exactly if the new seeds leave some key to encrypt with: a
      current seed that decodes and whose key name no old seed has. */
  lemma RotationKeepsTicketsIff(sha: Hash, s: Seeds, next: Seeds, k: Key, salt: Text)
    requires IsSha(sha) && |salt| == SALT_LENGTH
    requires IsValidRotation(s, next) && NoCollisions(sha, AllSeeds(s) + AllSeeds(next))
    requires k in Load(sha, s).active
    ensures var (ticket, keys) := Issue(sha, k, salt);
            && |ticket| == NAME_LENGTH + SALT_LENGTH
            && (Open(sha, next, ticket) == Some(keys) <==>
                exists n :: NamesOneOf(sha, next.currentSeeds, n) && !NamesOneOf(sha, next.oldSeeds, n))
  {
    NameLength(sha, s, k);
    assert (k.name + salt)[..NAME_LENGTH] == k.name && (k.name + salt)[NAME_LENGTH..] == salt;
    RotationKeepsKeys(sha, s, next, k);
    UsableIff(sha, next);
  }

  /** A rotation that counts as valid can still turn ticket handling off: retiring the only
      current seed without a successor. */
  lemma ValidRotationCanDisableTickets(sha: Hash)
    ensures var s, next := Seeds([], ["aa"], []), Seeds(["aa"], [], []);
            IsValidRotation(s, next) && Usable(Load(sha, s)) && !Usable(Load(sha, next))
  {
    var s, next := Seeds([], ["aa"], []), Seeds(["aa"], [], []);
    UsableIff(sha, s);
    UsableIff(sha, next);
    assert Unhexlify("aa").Some?;
    assert Named(sha, "aa", KeyName(sha, Unhexlify("aa").value));
    assert NamesOneOf(sha, s.currentSeeds, KeyName(sha, Unhexlify("aa").value));
  }
}
