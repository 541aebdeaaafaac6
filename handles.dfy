// Generational actor handles: one unsigned 32-bit word that packs a 16-bit
// uid above a 16-bit slot index (Code/Game/ActorHandle.cpp).
//
// The word is modelled as a number below 2^32. `uid << 16` in 32-bit
// unsigned arithmetic keeps the low 16 bits of the uid, shifted up, and its
// low half is zero, so `(uid << 16) | (index & 0xFFFF)` is the sum
// `(uid mod 2^16) * 2^16 + (index mod 2^16)`; `GetIndex` (`data & 0xFFFF`) is
// `data mod 2^16` and the uid that survives (`data >> 16`) is `data div 2^16`.
module ActorHandles {

  /** An unsigned 32-bit value. */
  newtype u32 = x: int | 0 <= x < 0x1_0000_0000

  /** An actor handle; `data` is the packed word. */
  datatype ActorHandle = ActorHandle(data: u32)

  /** The default-constructed handle, all bits clear. */
  function Default(): ActorHandle
  {
    ActorHandle(0)
  }

  /**
   * Packs `uid` and `index`. Only the low 16 bits of the index are kept; the
   * uid is shifted left by 16 without masking, so its high 16 bits fall out of
   * the 32-bit word.
   */
  function Make(uid: u32, index: u32): (h: ActorHandle)
    ensures GetIndex(h) == index % 0x10000
    ensures GetUid(h) == uid % 0x10000
  {
    var h := ActorHandle((uid % 0x10000) * 0x10000 + index % 0x10000);
    DivModUnique(h.data as int, (uid % 0x10000) as int, (index % 0x10000) as int);
    h
  }

  /** The handle that stands for "no actor". */
  const INVALID: ActorHandle := Make(0xFFFF, 0xFFFF)

  /** The slot index stored in the low half of the word. */
  function GetIndex(h: ActorHandle): (i: u32)
    ensures i < 0x10000
  {
    h.data % 0x10000
  }

  /** The uid part that survives packing (the high half of the word). */
  function GetUid(h: ActorHandle): (u: u32)
    ensures u < 0x10000
  {
    h.data / 0x10000
  }

  /** `operator==`: the packed words are equal, which is equality of handles. */
  predicate Equal(a: ActorHandle, b: ActorHandle)
    ensures Equal(a, b) <==> a == b
  {
    a.data == b.data
  }

  /** `operator!=`: the packed words differ, the negation of `==`. */
  predicate NotEqual(a: ActorHandle, b: ActorHandle)
    ensures NotEqual(a, b) <==> !Equal(a, b)
  {
    a.data != b.data
  }

  /**
   * `IsValid`: every path of the source returns false. The bound on the index
   * (`MAX_ACTOR_INDEX`, declared in a header that is not part of this model) is
   * a parameter.
   */
  predicate IsValid(h: ActorHandle, maxActorIndex: u32)
    ensures !IsValid(h, maxActorIndex)
  {
    if Equal(h, INVALID) then false
    else if GetIndex(h) > maxActorIndex then false
    else false
  }

  /** The word splits back into its two halves. */
  lemma Halves(h: ActorHandle)
    ensures h.data == GetUid(h) * 0x10000 + GetIndex(h)
  {
  }

  /** Division by 65536 is determined by any quotient and in-range remainder. */
  lemma DivModUnique(d: int, q: int, r: int)
    requires 0 <= r < 0x10000 && d == q * 0x10000 + r
    ensures d / 0x10000 == q && d % 0x10000 == r
  {
  }

  /** For a uid and an index below 2^16 the word is uid * 65536 + index. */
  lemma MakePacks(uid: u32, index: u32)
    requires uid < 0x10000 && index < 0x10000
    ensures Make(uid, index).data == uid * 0x10000 + index
  {
  }

  /** Handles built from distinct 16-bit (uid, index) pairs compare unequal. */
  lemma MakeInjective(u1: u32, i1: u32, u2: u32, i2: u32)
    requires u1 < 0x10000 && i1 < 0x10000 && u2 < 0x10000 && i2 < 0x10000
    ensures Equal(Make(u1, i1), Make(u2, i2)) <==> (u1 == u2 && i1 == i2)
  {
  }

  /** Uids that differ by 65536 give the same handle for the same index. */
  lemma UidAliases(uid: u32, index: u32)
    requires uid < 0xFFFF_0000
    ensures Make(uid + 0x10000, index) == Make(uid, index)
  {
    DivModUnique(uid as int + 0x10000, uid as int / 0x10000 + 1, uid as int % 0x10000);
  }

  /** INVALID is the all-ones word and names slot 0xFFFF. */
  lemma InvalidIsAllOnes()
    ensures INVALID.data == 0xFFFF_FFFF
    ensures GetIndex(INVALID) == 0xFFFF
  {
    MakePacks(0xFFFF, 0xFFFF);
    DivModUnique(0xFFFF_FFFF, 0xFFFF, 0xFFFF);
  }

  /** The default handle equals ActorHandle(0, 0) and differs from INVALID. */
  lemma DefaultHandle()
    ensures Equal(Default(), Make(0, 0))
    ensures NotEqual(Default(), INVALID)
  {
    MakePacks(0, 0);
    InvalidIsAllOnes();
  }
}
