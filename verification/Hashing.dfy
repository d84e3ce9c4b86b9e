/** Hashing as the archives use it: a state fed with chunks, and a digest of all that was fed. */
module Hashing {

  type Bytes = seq<bv8>

  datatype Hasher<!H(!new)> = Hasher(init: H, update: (H, Bytes) -> H, digest: H -> string) {

    /** Feeding chunks one by one is feeding them in one piece. A digest is never empty. */
    ghost predicate Lawful() {
      && (forall s :: update(s, []) == s)
      && (forall s, a, b :: update(update(s, a), b) == update(s, a + b))
      && (forall s :: digest(s) != "")
    }

    /** `sha256_bytes`. */
    function Hash(data: Bytes): string { digest(update(init, data)) }

    /** No two byte strings share a digest. */
    ghost predicate Injective() { forall a, b | Hash(a) == Hash(b) :: a == b }
  }

  /** The laws can be met: a state that remembers everything. */
  const REMEMBERING: Hasher<Bytes> := Hasher([], (s: Bytes, b: Bytes) => s + b, (s: Bytes) => Rendered(s))

  function Rendered(s: Bytes): string {
    seq(|s| + 1, i requires 0 <= i <= |s| => if i == 0 then '#' else s[i - 1] as char)
  }

  lemma {:induction false} LawsCanBeMet()
    ensures REMEMBERING.Lawful() && REMEMBERING.Injective()
  {
    var h := REMEMBERING;
    forall s: Bytes ensures h.update(s, []) == s {
      assert s + [] == s;
    }
    forall s: Bytes, a: Bytes, b: Bytes ensures h.update(h.update(s, a), b) == h.update(s, a + b) {
      assert s + a + b == s + (a + b);
    }
    forall a: Bytes, b: Bytes | h.Hash(a) == h.Hash(b) ensures a == b {
      assert [] + a == a && [] + b == b;
      RenderedOnce(a, b);
    }
  }

  lemma RenderedOnce(a: Bytes, b: Bytes)
    requires Rendered(a) == Rendered(b)
    ensures a == b
  {
    assert |Rendered(a)| == |a| + 1 && |Rendered(b)| == |b| + 1;
    forall i | 0 <= i < |a| ensures a[i] == b[i] {
      assert Rendered(a)[i + 1] == a[i] as char && Rendered(b)[i + 1] == b[i] as char;
    }
  }

  /** Reading a file chunk by chunk into a hasher gives the digest of the whole file. */
  method Streamed<H(!new)>(h: Hasher<H>, data: Bytes, size: nat) returns (d: string)
    requires h.Lawful() && size > 0
    ensures d == h.Hash(data)
  {
    var state, pos := h.init, 0;
    assert data[..0] == [];
    while pos < |data|
      invariant 0 <= pos <= |data| && state == h.update(h.init, data[..pos])
    {
      var stop := if pos + size <= |data| then pos + size else |data|;
      assert data[..pos] + data[pos..stop] == data[..stop];
      state := h.update(state, data[pos..stop]);
      pos := stop;
    }
    assert data[..pos] == data;
    d := h.digest(state);
  }
}
