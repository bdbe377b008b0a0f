/** Resource ids: 32 bytes made of the chain and, before it, up to 31 bytes of a name padded on the left. */
module ResourceIds {
  import opened Base

  const ID_LENGTH := 32
  const NAME_LENGTH := 31

  /** Bytes read as one big-endian number. */
  ghost function Value(s: seq<u8>): nat {
    if s == [] then 0 else 256 * Value(s[..|s| - 1]) + s[|s| - 1]
  }

  /** The part of a name that is kept. */
  ghost function Kept(id: seq<u8>): seq<u8> {
    if |id| > NAME_LENGTH then id[..NAME_LENGTH] else id
  }

  ghost function Zeros(n: nat): seq<u8> {
    seq(n, _ => 0)
  }

  /** The id of a named resource; an unnamed one has all bytes zero, its chain included. */
  ghost function Derived(chain: u8, id: seq<u8>): seq<u8> {
    if id == [] then Zeros(ID_LENGTH) else Zeros(NAME_LENGTH - |Kept(id)|) + Kept(id) + [chain]
  }

  method DeriveResourceId(chain: u8, id: seq<u8>) returns (rid: array<u8>)
    ensures fresh(rid) && rid[..] == Derived(chain, id)
  {
    rid := new u8[ID_LENGTH](_ => 0);
    if |id| == 0 {
      assert rid[..] == Zeros(ID_LENGTH);
      return;
    }
    rid[31] := chain;
    var range := if |id| > NAME_LENGTH then NAME_LENGTH else |id|;
    for i := 0 to range
      invariant rid[31] == chain
      invariant forall k :: 0 <= k < NAME_LENGTH - i ==> rid[k] == 0
      invariant forall k :: NAME_LENGTH - i <= k < NAME_LENGTH ==> rid[k] == id[k - (NAME_LENGTH - range)]
    {
      rid[30 - i] := id[range - 1 - i];
    }
    assert rid[..] == Zeros(NAME_LENGTH - range) + id[..range] + [chain];
    assert Kept(id) == id[..range];
  }

  lemma {:induction false} ValuePadded(n: nat, s: seq<u8>)
    ensures Value(Zeros(n) + s) == Value(s)
  {
    if s != [] {
      assert (Zeros(n) + s)[..n + |s| - 1] == Zeros(n) + s[..|s| - 1];
      ValuePadded(n, s[..|s| - 1]);
    } else if n > 0 {
      assert (Zeros(n) + s)[..n - 1] == Zeros(n - 1) + s;
      ValuePadded(n - 1, s);
    }
  }

  lemma {:induction false} ValueInjective(a: seq<u8>, b: seq<u8>)
    requires |a| == |b| && Value(a) == Value(b)
    ensures a == b
  {
    if a != [] {
      var k := |a| - 1;
      assert a[k] == b[k] && Value(a[..k]) == Value(b[..k]);
      ValueInjective(a[..k], b[..k]);
      assert a == a[..k] + [a[k]] && b == b[..k] + [b[k]];
    }
  }

  /** A named id is 256 times the kept name plus the chain, in 32 bytes. */
  lemma DerivedValue(chain: u8, id: seq<u8>)
    requires id != []
    ensures |Derived(chain, id)| == ID_LENGTH
    ensures Value(Derived(chain, id)) == 256 * Value(Kept(id)) + chain
  {
    var name := Zeros(NAME_LENGTH - |Kept(id)|) + Kept(id);
    ValuePadded(NAME_LENGTH - |Kept(id)|, Kept(id));
    assert Derived(chain, id)[..NAME_LENGTH] == name;
  }

  /** Two named ids are the same exactly when chain and kept name, read as a number, are. */
  lemma CollideIff(c: u8, a: seq<u8>, d: u8, b: seq<u8>)
    requires a != [] && b != []
    ensures Derived(c, a) == Derived(d, b) <==> c == d && Value(Kept(a)) == Value(Kept(b))
  {
    DerivedValue(c, a);
    DerivedValue(d, b);
    if Value(Derived(c, a)) == Value(Derived(d, b)) {
      ValueInjective(Derived(c, a), Derived(d, b));
    }
  }

  /** Names of one length that fits are told apart on every chain. */
  lemma InjectiveAtLength(c: u8, a: seq<u8>, d: u8, b: seq<u8>)
    requires 0 < |a| == |b| <= NAME_LENGTH
    ensures Derived(c, a) == Derived(d, b) <==> c == d && a == b
  {
    CollideIff(c, a, d, b);
    if Value(a) == Value(b) {
      ValueInjective(a, b);
    }
  }

  /** The unnamed id is taken by exactly the names of zeros on chain 0. */
  lemma UnnamedCollidesIff(c: u8, d: u8, b: seq<u8>)
    requires b != []
    ensures Derived(c, []) == Derived(d, b) <==> d == 0 && Value(Kept(b)) == 0
  {
    var zeros := Zeros(ID_LENGTH);
    ValuePadded(ID_LENGTH, []);
    assert zeros + [] == zeros;
    DerivedValue(d, b);
    if Value(Derived(d, b)) == 0 {
      ValueInjective(zeros, Derived(d, b));
    }
  }
}
