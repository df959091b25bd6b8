/** ssl3_choose_cipher (ssl/handshake_server.cc): the cipher suite of a TLS 1.2 handshake, out of
    the server's list with its groups of equal preference and the client's list. */
module ChooseCipher {
  import opened Bits
  import opened Options

  /** SSL_CIPHER; two suites are the same just if these are equal. */
  datatype Cipher = Cipher(id: nat, minVersion: nat, maxVersion: nat, mkey: bv32, auth: bv32)

  /** What the negotiated version and the server's configuration allow. */
  datatype Config = Config(version: nat, maskK: bv32, maskA: bv32)

  predicate Meets(a: bv32, b: bv32) { a & b != 0 }

  ghost predicate Usable(c: Cipher, cfg: Config)
  {
    && c.minVersion <= cfg.version <= c.maxVersion
    && Meets(c.mkey, cfg.maskK) && Meets(c.auth, cfg.maskA)
  }

  predicate FlagsOk(prio: seq<Cipher>, flags: Option<seq<byte>>)
  {
    flags.Some? ==> |flags.value| == |prio| && forall i :: 0 <= i < |prio| ==> flags.value[i] <= 1
  }

  ghost predicate InGroup(flags: Option<seq<byte>>, i: nat)
    requires flags.Some? ==> i < |flags.value|
  {
    flags.Some? && flags.value[i] == 1
  }

  /** Usable, and on both lists. */
  ghost predicate Shared(prio: seq<Cipher>, allow: seq<Cipher>, cfg: Config, i: nat)
  {
    i < |prio| && Usable(prio[i], cfg) && prio[i] in allow
  }

  /** The last position of the group of position i, which is the next one not marked as going
      on; the length of the list when there is none. */
  ghost function GroupEnd(prio: seq<Cipher>, flags: Option<seq<byte>>, i: nat): (e: nat)
    requires FlagsOk(prio, flags) && i <= |prio|
    ensures i <= e <= |prio|
    ensures e < |prio| ==> !InGroup(flags, e)
    ensures forall j :: i <= j < e ==> InGroup(flags, j)
    decreases |prio| - i
  {
    if i == |prio| || !InGroup(flags, i) then i else GroupEnd(prio, flags, i + 1)
  }

  /** sk_SSL_CIPHER_find: the first position of a suite. */
  function Find(allow: seq<Cipher>, c: Cipher): (k: nat)
    requires c in allow
    ensures k < |allow| && allow[k] == c && forall j :: 0 <= j < k ==> allow[j] != c
  {
    if allow[0] == c then 0 else 1 + Find(allow[1..], c)
  }

  /** The choice at position i: no group that ends earlier has a shared suite, and no shared suite
      of its own group comes earlier on the other list. */
  ghost predicate Best(prio: seq<Cipher>, flags: Option<seq<byte>>, allow: seq<Cipher>, cfg: Config, i: nat)
    requires FlagsOk(prio, flags)
  {
    && Shared(prio, allow, cfg, i) && GroupEnd(prio, flags, i) < |prio|
    && forall j: nat :: Shared(prio, allow, cfg, j) ==>
      && GroupEnd(prio, flags, i) <= GroupEnd(prio, flags, j)
      && (GroupEnd(prio, flags, i) == GroupEnd(prio, flags, j) ==> Find(allow, prio[i]) <= Find(allow, prio[j]))
  }

  /** There is only one best suite. */
  lemma BestIsUnique(prio: seq<Cipher>, flags: Option<seq<byte>>, allow: seq<Cipher>, cfg: Config, i: nat, j: nat)
    requires FlagsOk(prio, flags) && Best(prio, flags, allow, cfg, i) && Best(prio, flags, allow, cfg, j)
    ensures prio[i] == prio[j]
  {
    assert Find(allow, prio[i]) == Find(allow, prio[j]);
  }

  /** Up to the end of its group, a position shares it; later ones are in later groups. */
  lemma SameGroup(prio: seq<Cipher>, flags: Option<seq<byte>>, i: nat, j: nat)
    requires FlagsOk(prio, flags) && i <= j < |prio| && j <= GroupEnd(prio, flags, i)
    ensures GroupEnd(prio, flags, j) == GroupEnd(prio, flags, i)
    ensures InGroup(flags, j) ==> GroupEnd(prio, flags, i) > j
    ensures !InGroup(flags, j) ==> GroupEnd(prio, flags, i) == j
  {
    hide GroupEnd;
    var e, f := GroupEnd(prio, flags, i), GroupEnd(prio, flags, j);
    assert e < |prio| ==> !InGroup(flags, e);
  }

  /** Among the positions below n, `best` is in the first group with a shared suite, and is best there. */
  ghost predicate FirstSoFar(prio: seq<Cipher>, flags: Option<seq<byte>>, allow: seq<Cipher>, cfg: Config, best: nat, n: nat)
    requires FlagsOk(prio, flags)
  {
    && Shared(prio, allow, cfg, best) && best < n
    && forall j: nat :: j < n && Shared(prio, allow, cfg, j) ==>
      GroupEnd(prio, flags, j) == GroupEnd(prio, flags, best) && Find(allow, prio[best]) <= Find(allow, prio[j])
  }

  ghost predicate NoneBelow(prio: seq<Cipher>, allow: seq<Cipher>, cfg: Config, n: nat)
  {
    forall j: nat :: j < n ==> !Shared(prio, allow, cfg, j)
  }

  /** One more shared position, of the same group. */
  lemma OneMore(prio: seq<Cipher>, flags: Option<seq<byte>>, allow: seq<Cipher>, cfg: Config, best: nat, i: nat)
    requires FlagsOk(prio, flags) && Shared(prio, allow, cfg, i)
    requires FirstSoFar(prio, flags, allow, cfg, best, i) && GroupEnd(prio, flags, best) >= i
    ensures FirstSoFar(prio, flags, allow, cfg, if Find(allow, prio[i]) < Find(allow, prio[best]) then i else best, i + 1)
    ensures Find(allow, prio[i]) == Find(allow, prio[best]) ==> FirstSoFar(prio, flags, allow, cfg, i, i + 1)
    ensures GroupEnd(prio, flags, i) == GroupEnd(prio, flags, best)
  {
    hide GroupEnd, Find, Usable;
    SameGroup(prio, flags, best, i);
  }

  lemma FirstOne(prio: seq<Cipher>, flags: Option<seq<byte>>, allow: seq<Cipher>, cfg: Config, i: nat)
    requires FlagsOk(prio, flags) && Shared(prio, allow, cfg, i) && NoneBelow(prio, allow, cfg, i)
    ensures FirstSoFar(prio, flags, allow, cfg, i, i + 1) && GroupEnd(prio, flags, i) >= i
  {}

  /** At the end of the group the best so far is the best. */
  lemma BestAtEnd(prio: seq<Cipher>, flags: Option<seq<byte>>, allow: seq<Cipher>, cfg: Config, best: nat, i: nat)
    requires FlagsOk(prio, flags) && i < |prio|
    requires FirstSoFar(prio, flags, allow, cfg, best, i + 1) && GroupEnd(prio, flags, best) == i
    ensures Best(prio, flags, allow, cfg, best)
  {
    hide GroupEnd, Find, Usable;
    forall j: nat | Shared(prio, allow, cfg, j)
      ensures i <= GroupEnd(prio, flags, j) && (i == GroupEnd(prio, flags, j) ==> Find(allow, prio[best]) <= Find(allow, prio[j]))
    {
      assert j <= GroupEnd(prio, flags, j);
    }
  }

  /** The lists in the roles that the options give them. */
  datatype Lists = Lists(prio: seq<Cipher>, flags: Option<seq<byte>>, allow: seq<Cipher>)

  function Roles(serverPreference: bool, client: seq<Cipher>, server: seq<Cipher>, flags: Option<seq<byte>>): Lists
  {
    if serverPreference then Lists(server, flags, client) else Lists(client, None, server)
  }

  /** The conditions on a suite alone. */
  method IsUsable(c: Cipher, cfg: Config) returns (yes: bool)
    ensures yes <==> Usable(c, cfg)
  {
    hide Meets;
    return c.minVersion <= cfg.version && cfg.version <= c.maxVersion
      && Meets(c.mkey, cfg.maskK) && Meets(c.auth, cfg.maskA);
  }

  /** `r` is a suite just if some group of the list `prio` that ends has one that is usable and on
      the other list; and then it is from the first such group, the earliest on the other list. */
  ghost predicate IsChoice(prio: seq<Cipher>, flags: Option<seq<byte>>, allow: seq<Cipher>, cfg: Config, r: Option<Cipher>)
    requires FlagsOk(prio, flags)
  {
    && (r.Some? <==> exists i: nat :: Shared(prio, allow, cfg, i) && GroupEnd(prio, flags, i) < |prio|)
    && (r.Some? ==> exists i: nat :: Best(prio, flags, allow, cfg, i) && r == Some(prio[i]))
  }

  /** ssl3_choose_cipher. With the server's preference, its list and groups come first; otherwise the
      client's list, which has no groups. `client` is None when the client's list cannot be parsed. A suite is
      found just if some group that ends has a shared one; and then it is the best one. */
  method Choose(serverPreference: bool, client: Option<seq<Cipher>>, server: seq<Cipher>, serverFlags: Option<seq<byte>>, cfg: Config)
      returns (r: Option<Cipher>)
    requires FlagsOk(server, serverFlags)
    ensures client.None? ==> r == None
    ensures client.Some? && serverPreference ==> IsChoice(server, serverFlags, client.value, cfg, r)
    ensures client.Some? && !serverPreference ==> IsChoice(client.value, None, server, cfg, r)
  {
    hide Usable, GroupEnd, Find, FirstSoFar, Best;
    if client.None? {
      return None;
    }
    var l := Roles(serverPreference, client.value, server, serverFlags);
    var prio, flags, allow := l.prio, l.flags, l.allow;
    var groupMin := -1;
    ghost var best := 0;       // where groupMin was found
    for i := 0 to |prio|
      invariant groupMin == -1 ==> NoneBelow(prio, allow, cfg, i)
      invariant groupMin != -1 ==> Found(l, cfg, best, i, groupMin)
    {
      if groupMin != -1 { FoundHere(l, cfg, best, i, groupMin); }
      var c := prio[i];
      var usable := IsUsable(c, cfg);
      if usable && c in allow {
        var cipherIndex := Find(allow, c);
        if groupMin == -1 {
          FirstOne(prio, flags, allow, cfg, i);
        } else {
          OneMore(prio, flags, allow, cfg, best, i);
        }
        SameGroup(prio, flags, i, i);
        if flags.Some? && flags.value[i] == 1 {
          // This element is in a group. Update the minimum index found so far.
          if groupMin == -1 || groupMin > cipherIndex {
            groupMin, best := cipherIndex, i;
          }
        } else {
          if groupMin != -1 && groupMin < cipherIndex {
            cipherIndex := groupMin;
          } else {
            best := i;
          }
          BestAtEnd(prio, flags, allow, cfg, best, i);
          BestIsThere(l, cfg, best);
          return Some(allow[cipherIndex]);
        }
      } else if groupMin != -1 {
        OneLess(l, cfg, best, i);
      }
      if flags.Some? && flags.value[i] == 0 && groupMin != -1 {
        // We are about to leave a group, but we found a match in it.
        BestAtEnd(prio, flags, allow, cfg, best, i);
        BestIsThere(l, cfg, best);
        return Some(allow[groupMin]);
      }
    }
    if groupMin != -1 { NoEnd(l, cfg, best); }
    return None;
  }

  /** `groupMin` is the index, on the other list, of the best so far, whose group goes on. */
  ghost predicate Found(l: Lists, cfg: Config, best: nat, i: nat, groupMin: int)
    requires FlagsOk(l.prio, l.flags)
  {
    && FirstSoFar(l.prio, l.flags, l.allow, cfg, best, i)
    && groupMin == Find(l.allow, l.prio[best]) && GroupEnd(l.prio, l.flags, best) >= i
  }

  lemma FoundHere(l: Lists, cfg: Config, best: nat, i: nat, groupMin: int)
    requires FlagsOk(l.prio, l.flags) && Found(l, cfg, best, i, groupMin) && i < |l.prio|
    ensures best < i && Shared(l.prio, l.allow, cfg, best) && 0 <= groupMin < |l.allow| && l.allow[groupMin] == l.prio[best]
    ensures if InGroup(l.flags, i) then GroupEnd(l.prio, l.flags, best) > i else GroupEnd(l.prio, l.flags, best) == i
    ensures l.flags.Some?
  {
    hide GroupEnd, Find, Usable;
    SameGroup(l.prio, l.flags, best, i);
    SameGroup(l.prio, l.flags, best, best);
  }

  lemma OneLess(l: Lists, cfg: Config, best: nat, i: nat)
    requires FlagsOk(l.prio, l.flags) && !Shared(l.prio, l.allow, cfg, i)
    requires FirstSoFar(l.prio, l.flags, l.allow, cfg, best, i)
    ensures FirstSoFar(l.prio, l.flags, l.allow, cfg, best, i + 1)
  {}

  lemma BestIsThere(l: Lists, cfg: Config, best: nat)
    requires FlagsOk(l.prio, l.flags) && Best(l.prio, l.flags, l.allow, cfg, best)
    ensures exists i: nat :: Shared(l.prio, l.allow, cfg, i) && GroupEnd(l.prio, l.flags, i) < |l.prio|
    ensures best < |l.prio| && l.prio[best] in l.allow
  {
    assert Shared(l.prio, l.allow, cfg, best);
  }

  /** The list ended inside the first group with a shared suite. */
  lemma NoEnd(l: Lists, cfg: Config, best: nat)
    requires FlagsOk(l.prio, l.flags) && FirstSoFar(l.prio, l.flags, l.allow, cfg, best, |l.prio|)
    requires GroupEnd(l.prio, l.flags, best) >= |l.prio|
    ensures forall i: nat :: Shared(l.prio, l.allow, cfg, i) ==> GroupEnd(l.prio, l.flags, i) >= |l.prio|
  {}

  /** In a list whose last group ends, a suite is found just if some suite is shared; and with no
      groups at all, it is the first shared one. */
  lemma WellFormedLists(prio: seq<Cipher>, flags: Option<seq<byte>>, i: nat)
    requires FlagsOk(prio, flags) && i < |prio|
    ensures !InGroup(flags, |prio| - 1) ==> GroupEnd(prio, flags, i) < |prio|
    ensures (forall j :: i <= j < |prio| ==> !InGroup(flags, j)) ==> GroupEnd(prio, flags, i) == i
  {
    assert GroupEnd(prio, flags, i) == |prio| ==> InGroup(flags, |prio| - 1);
  }
}
