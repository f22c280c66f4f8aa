/** The password hash of server/main.go: a 32-byte block of PBKDF2 (RFC 8018, section 5.2), computed by XOR in place. */
module PasswordKey {
  type Bytes = seq<bv8>
  type Block = s: Bytes | |s| == 32 witness seq(32, _ => 0)

  /** The pseudorandom function, HMAC-SHA256 in the program: password first, message second. */
  type Prf = (Bytes, Bytes) -> Block

  const BLOCK_INDEX: Bytes := [0, 0, 0, 1]

  function Xor(a: Block, b: Block): (r: Block)
    ensures forall j :: 0 <= j < 32 ==> r[j] == a[j] ^ b[j]
  {
    seq(32, j requires 0 <= j < 32 => a[j] ^ b[j])
  }

  // ---------- RFC 8018, section 5.2 ----------

  /** U_1 = PRF(P, S || INT(1)), U_k = PRF(P, U_{k-1}). */
  function U(prf: Prf, password: Bytes, salt: Bytes, k: nat): Block
    requires k >= 1
  {
    if k == 1 then prf(password, salt + BLOCK_INDEX) else prf(password, U(prf, password, salt, k - 1))
  }

  /** The blocks U_first, ..., U_last. */
  function Us(prf: Prf, password: Bytes, salt: Bytes, first: nat, last: nat): seq<Block>
    requires 1 <= first <= last + 1
    decreases last + 1 - first
  {
    if first == last + 1 then [] else [U(prf, password, salt, first)] + Us(prf, password, salt, first + 1, last)
  }

  /** The exclusive or of a non-empty list of blocks. */
  function XorAll(blocks: seq<Block>): Block
    requires blocks != []
  {
    if |blocks| == 1 then blocks[0] else Xor(blocks[0], XorAll(blocks[1..]))
  }

  /** F(P, S, c, 1) = U_1 xor U_2 xor ... xor U_c. */
  function F(prf: Prf, password: Bytes, salt: Bytes, c: nat): Block
    requires c >= 1
  {
    UsNonEmpty(prf, password, salt, 1, c);
    XorAll(Us(prf, password, salt, 1, c))
  }

  lemma UsNonEmpty(prf: Prf, password: Bytes, salt: Bytes, first: nat, last: nat)
    requires 1 <= first <= last
    ensures Us(prf, password, salt, first, last) != []
  {
  }

  lemma {:induction false} UsSnoc(prf: Prf, password: Bytes, salt: Bytes, first: nat, last: nat)
    requires 1 <= first <= last + 1
    ensures Us(prf, password, salt, first, last + 1)
         == Us(prf, password, salt, first, last) + [U(prf, password, salt, last + 1)]
    decreases last + 1 - first
  {
    if first <= last {
      UsSnoc(prf, password, salt, first + 1, last);
    }
  }

  lemma XorAssociative(a: Block, b: Block, c: Block)
    ensures Xor(Xor(a, b), c) == Xor(a, Xor(b, c))
  {
    var l, r := Xor(Xor(a, b), c), Xor(a, Xor(b, c));
    forall j | 0 <= j < 32 ensures l[j] == r[j] {
    }
  }

  lemma {:induction false} XorAllSnoc(blocks: seq<Block>, b: Block)
    requires blocks != []
    ensures XorAll(blocks + [b]) == Xor(XorAll(blocks), b)
  {
    assert (blocks + [b])[1..] == blocks[1..] + [b];
    if |blocks| > 1 {
      XorAllSnoc(blocks[1..], b);
      XorAssociative(blocks[0], XorAll(blocks[1..]), b);
    }
  }

  /** One more round of the loop is one more iteration of the standard. */
  lemma NextIteration(prf: Prf, password: Bytes, salt: Bytes, c: nat)
    requires c >= 1
    ensures F(prf, password, salt, c + 1) == Xor(F(prf, password, salt, c), U(prf, password, salt, c + 1))
  {
    UsNonEmpty(prf, password, salt, 1, c);
    UsSnoc(prf, password, salt, 1, c);
    XorAllSnoc(Us(prf, password, salt, 1, c), U(prf, password, salt, c + 1));
  }

  /** The first iterations, spelled out. */
  lemma FirstIterations(prf: Prf, password: Bytes, salt: Bytes)
    ensures var u1 := prf(password, salt + [0, 0, 0, 1]);
      && F(prf, password, salt, 1) == u1
      && F(prf, password, salt, 2) == Xor(u1, prf(password, u1))
  {
    NextIteration(prf, password, salt, 1);
    assert U(prf, password, salt, 1) == prf(password, salt + [0, 0, 0, 1]);
    assert U(prf, password, salt, 2) == prf(password, U(prf, password, salt, 1));
    assert Us(prf, password, salt, 1, 1) == [U(prf, password, salt, 1)];
  }

  // ---------- passwordKey ----------

  method XorInto(out: array<bv8>, u: Block)
    requires out.Length == 32
    modifies out
    ensures out[..] == Xor(old(out[..]), u)
  {
    for j := 0 to 32
      invariant forall i :: 0 <= i < j ==> out[i] == old(out[i]) ^ u[i]
      invariant forall i :: j <= i < 32 ==> out[i] == old(out[i])
    {
      out[j] := out[j] ^ u[j];
    }
    assert forall i :: 0 <= i < 32 ==> out[..][i] == Xor(old(out[..]), u)[i];
  }

  /** A count below one still performs the first iteration. */
  method PasswordKey(prf: Prf, password: Bytes, salt: Bytes, iterations: int) returns (key: Block)
    ensures key == F(prf, password, salt, if iterations < 1 then 1 else iterations)
  {
    var u := prf(password, salt + BLOCK_INDEX);
    var out := new bv8[32](i requires 0 <= i < 32 => u[i]);
    assert out[..] == u;
    var i := 1;
    while i < iterations
      invariant 1 <= i && (i <= iterations || i == 1)
      invariant u == U(prf, password, salt, i)
      invariant out[..] == F(prf, password, salt, i)
    {
      u := prf(password, u);
      XorInto(out, u);
      NextIteration(prf, password, salt, i);
      i := i + 1;
    }
    key := out[..];
  }
}
