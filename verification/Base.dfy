/** Machine integers and the small vocabulary that every driver shares. */
module Base {

  const TWO16 := 0x1_0000
  const TWO32 := 0x1_0000_0000
  const TWO64 := 0x1_0000_0000_0000_0000

  type u8 = x: int | 0 <= x < 0x100
  type u16 = x: int | 0 <= x < TWO16
  type u32 = x: int | 0 <= x < TWO32
  /** `usize` on the 64-bit targets of the repository. */
  type u64 = x: int | 0 <= x < TWO64

  datatype Option<+T> = None | Some(value: T)

  /** The error values a submission can return. */
  datatype Error = InvalidArgs | OutOfMemory | NotSupported

  /** Operation codes of the io_uring protocol; their numbers live in the system library. */
  datatype Opcode = OpRead | OpWrite | OpSync | OpFbFlush | OpOther(code: u8)

  /** A submission-queue entry. */
  datatype Sqe = Sqe(opcode: Opcode, addr: u64, len: u32, off: u64, ud: u64)

  /** A completion-queue entry. */
  datatype Cqe = Cqe(ud: u64, res: int)

  /** The window a client shares with a driver. */
  datatype Shm = Shm(clientVaddr: u64, paddr: u64, size: u64)

  function Min(a: int, b: int): int {
    if a <= b then a else b
  }

  /** Address arithmetic on `usize` wraps. */
  function Wrap64(x: int): u64 {
    x % TWO64
  }

  /** The cast of a `u32` to `i32`. */
  function ToI32(x: u32): int {
    if x < 0x8000_0000 then x else x - TWO32
  }

  ghost predicate Distinct<T>(s: seq<T>) {
    forall i, j :: 0 <= i < j < |s| ==> s[i] != s[j]
  }

  lemma DistinctPrefix<T>(s: seq<T>, n: nat)
    requires Distinct(s) && n < |s|
    ensures Distinct(s[..n])
    ensures forall i :: 0 <= i < n ==> s[..n][i] != s[n]
  {
  }

  /** A repetition-free sequence drawn from a finite set is no longer than the set. */
  lemma {:induction false} DistinctFits<T>(s: seq<T>, within: set<T>)
    requires Distinct(s)
    requires forall x :: x in s ==> x in within
    ensures |s| <= |within|
  {
    if s != [] {
      var rest := within - {s[0]};
      assert |rest| == |within| - 1;
      forall x | x in s[1..] ensures x in rest {
        var i :| 0 <= i < |s[1..]| && s[1..][i] == x;
        assert s[i + 1] == x;
      }
      DistinctFits(s[1..], rest);
    }
  }

  lemma MapGrows<K, V>(m: map<K, V>, k: K, v: V)
    requires k !in m
    ensures |m[k := v]| == |m| + 1
  {
    assert m[k := v].Keys == m.Keys + {k};
    assert |m[k := v].Keys| == |m.Keys| + 1;
  }

  lemma MapShrinks<K, V>(m: map<K, V>, k: K)
    requires k in m
    ensures |m - {k}| == |m| - 1
  {
    assert m.Keys == (m - {k}).Keys + {k};
    assert |m.Keys| == |(m - {k}).Keys| + 1;
  }

  /** `n` groups of `k`: multiplication by counting. */
  function Groups(k: nat, n: nat): nat {
    if n == 0 then 0 else k + Groups(k, n - 1)
  }

  lemma {:induction false} GroupsMultiply(k: nat, n: nat)
    ensures Groups(k, n) == k * n
  {
    if n > 0 {
      GroupsMultiply(k, n - 1);
    }
  }
}
