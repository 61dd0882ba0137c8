// The CMSIS register macros SET_BIT, CLEAR_BIT and MODIFY_REG on 32-bit
// registers, and the field updates TimerWrapper's
// config_output_compare_channel makes to its copies of CCMRx, CCER and CR2,
// stated over arbitrary fields so that each fact is proved once.
module RegisterBits {
  /** SET_BIT. */
  function SetBits(reg: bv32, mask: bv32): bv32
  {
    reg | mask
  }

  /** SET_BIT: the mask's bits become 1 and every other bit keeps its
      value. */
  lemma SetBitsSpec(reg: bv32, mask: bv32)
    ensures SetBits(reg, mask) & mask == mask && SetBits(reg, mask) & !mask == reg & !mask
  {
  }

  /** CLEAR_BIT. */
  function ClearBits(reg: bv32, mask: bv32): bv32
  {
    reg & !mask
  }

  /** CLEAR_BIT: the mask's bits become 0 and every other bit keeps its
      value. */
  lemma ClearBitsSpec(reg: bv32, mask: bv32)
    ensures ClearBits(reg, mask) & mask == 0 && ClearBits(reg, mask) & !mask == reg & !mask
  {
  }

  /** MODIFY_REG: the field takes the value and the other bits keep
      theirs. */
  function ModifyReg(reg: bv32, field: bv32, value: bv32): (r: bv32)
    requires value & !field == 0
    ensures r & field == value && r & !field == reg & !field
  {
    (reg & !field) | value
  }

  /** Clearing undoes setting on the bits of the mask that were clear. */
  lemma ClearUndoesSet(reg: bv32, mask: bv32)
    requires reg & mask == 0
    ensures ClearBits(SetBits(reg, mask), mask) == reg
  {
  }

  /** Shifting keeps a value inside its field. */
  lemma ShiftInside(x: bv32, m: bv32, n: bv32)
    requires n < 32 && x & !m == 0
    ensures (x << n) & !(m << n) == 0
  {
  }

  /** Shifting keeps disjoint fields disjoint. */
  lemma ShiftApart(x: bv32, m: bv32, n: bv32)
    requires n < 32 && x & m == 0
    ensures (x << n) & (m << n) == 0
  {
  }

  lemma ShiftZero(x: bv32)
    ensures x << 0 == x
  {
  }

  /** A value inside a field is apart from whatever that field is apart
      from. */
  lemma InsideApart(v: bv32, f: bv32, g: bv32)
    requires v & !f == 0 && f & g == 0
    ensures v & g == 0
  {
  }

  /** Setting a value inside a cleared field writes the value there. */
  lemma SetInside(reg: bv32, f: bv32, v: bv32)
    requires reg & f == 0 && v & !f == 0
    ensures SetBits(reg, v) & f == v
  {
  }

  /** Setting bits apart from a field leaves that field alone. */
  lemma SetOutside(reg: bv32, v: bv32, o: bv32)
    requires v & o == 0
    ensures SetBits(reg, v) & o == reg & o
  {
  }

  /** Bits apart from a union of fields are apart from each of them. */
  lemma ApartFromUnion(f: bv32, g: bv32, k: bv32)
    requires k & (f | g) == 0
    ensures f & k == 0 && g & k == 0
  {
  }

  /** Writing a value inside a field leaves bits apart from it alone. */
  lemma WriteKeepsApart(reg: bv32, f: bv32, v: bv32, o: bv32)
    requires v & !f == 0 && f & o == 0
    ensures SetBits(ClearBits(reg, f), v) & o == reg & o
  {
  }

  /** Clearing bits apart from a field leaves that field alone. */
  lemma ClearOutside(reg: bv32, f: bv32, o: bv32)
    requires f & o == 0
    ensures ClearBits(reg, f) & o == reg & o
  {
  }

  /** The CCMR update of one channel: clear its mode and CCxS fields, then
      OR in the mode. */
  function CcmrUpdate(ccmr: bv32, field: bv32, ccs: bv32, value: bv32): bv32
  {
    SetBits(ClearBits(ClearBits(ccmr, field), ccs), value)
  }

  lemma CcmrUpdateField(ccmr: bv32, field: bv32, ccs: bv32, value: bv32)
    requires value & !field == 0 && ccs & field == 0
    ensures CcmrUpdate(ccmr, field, ccs, value) & field == value
  {
  }

  lemma CcmrUpdateCcs(ccmr: bv32, field: bv32, ccs: bv32, value: bv32)
    requires value & !field == 0 && ccs & field == 0
    ensures CcmrUpdate(ccmr, field, ccs, value) & ccs == 0
  {
  }

  /** Bits apart from the mode and CCxS fields keep their values. */
  lemma CcmrUpdateRest(ccmr: bv32, field: bv32, ccs: bv32, value: bv32, keep: bv32)
    requires value & !field == 0 && keep & (field | ccs) == 0
    ensures CcmrUpdate(ccmr, field, ccs, value) & keep == ccmr & keep
  {
    var cleared := ClearBits(ccmr, field);
    ApartFromUnion(field, ccs, keep);
    InsideApart(value, field, keep);
    ClearOutside(ccmr, field, keep);
    ClearOutside(cleared, ccs, keep);
    SetOutside(ClearBits(cleared, ccs), value, keep);
  }

  /** A mode inside its field lands there, CCxS ends cleared and every bit
      of keep, apart from both fields, keeps its value. */
  lemma CcmrUpdateSpec(ccmr: bv32, field: bv32, ccs: bv32, value: bv32, keep: bv32)
    requires value & !field == 0 && ccs & field == 0 && keep & (field | ccs) == 0
    ensures CcmrUpdate(ccmr, field, ccs, value) & field == value
    ensures CcmrUpdate(ccmr, field, ccs, value) & ccs == 0
    ensures CcmrUpdate(ccmr, field, ccs, value) & keep == ccmr & keep
  {
    CcmrUpdateField(ccmr, field, ccs, value);
    CcmrUpdateCcs(ccmr, field, ccs, value);
    CcmrUpdateRest(ccmr, field, ccs, value, keep);
  }

  /** The CCER copy's update: write the polarity field and, for a
      complementary output, the negated polarity field, then clear CCxNE. */
  function CcerUpdate(ccer: bv32, p: bv32, np: bv32, ne: bv32, pol: bv32, npol: bv32, ccxn: bool): bv32
  {
    var withPolarity := SetBits(ClearBits(ccer, p), pol);
    if ccxn then ClearBits(SetBits(ClearBits(withPolarity, np), npol), ne) else withPolarity
  }

  lemma CcerUpdatePolarity(ccer: bv32, p: bv32, e: bv32, np: bv32, ne: bv32, pol: bv32, npol: bv32, ccxn: bool)
    requires pol & !p == 0 && npol & !np == 0
    requires p & e == 0 && np & e == 0 && ne & e == 0 && np & p == 0 && ne & p == 0 && ne & np == 0
    ensures CcerUpdate(ccer, p, np, ne, pol, npol, ccxn) & p == pol
  {
  }

  lemma CcerUpdateEnable(ccer: bv32, p: bv32, e: bv32, np: bv32, ne: bv32, pol: bv32, npol: bv32, ccxn: bool)
    requires pol & !p == 0 && npol & !np == 0
    requires p & e == 0 && np & e == 0 && ne & e == 0 && np & p == 0 && ne & p == 0 && ne & np == 0
    ensures CcerUpdate(ccer, p, np, ne, pol, npol, ccxn) & e == ccer & e
  {
    var w := SetBits(ClearBits(ccer, p), pol);
    WriteKeepsApart(ccer, p, pol, e);
    if ccxn {
      WriteKeepsApart(w, np, npol, e);
      ClearOutside(SetBits(ClearBits(w, np), npol), ne, e);
    }
  }

  lemma CcerUpdateNPolarity(ccer: bv32, p: bv32, e: bv32, np: bv32, ne: bv32, pol: bv32, npol: bv32, ccxn: bool)
    requires pol & !p == 0 && npol & !np == 0
    requires p & e == 0 && np & e == 0 && ne & e == 0 && np & p == 0 && ne & p == 0 && ne & np == 0
    ensures ccxn ==> CcerUpdate(ccer, p, np, ne, pol, npol, ccxn) & np == npol
  {
  }

  lemma CcerUpdateNEnable(ccer: bv32, p: bv32, e: bv32, np: bv32, ne: bv32, pol: bv32, npol: bv32, ccxn: bool)
    requires pol & !p == 0 && npol & !np == 0
    requires p & e == 0 && np & e == 0 && ne & e == 0 && np & p == 0 && ne & p == 0 && ne & np == 0
    ensures ccxn ==> CcerUpdate(ccer, p, np, ne, pol, npol, ccxn) & ne == 0
  {
  }

  lemma CcerUpdateRest(ccer: bv32, p: bv32, e: bv32, np: bv32, ne: bv32, pol: bv32, npol: bv32, ccxn: bool)
    requires pol & !p == 0 && npol & !np == 0
    requires p & e == 0 && np & e == 0 && ne & e == 0 && np & p == 0 && ne & p == 0 && ne & np == 0
    ensures !ccxn ==> CcerUpdate(ccer, p, np, ne, pol, npol, ccxn) & !p == ccer & !p
  {
  }

  /** With values inside their fields and the fields apart, each field
      ends as intended and a bit outside all of them keeps its value. */
  lemma CcerUpdateSpec(ccer: bv32, p: bv32, e: bv32, np: bv32, ne: bv32, pol: bv32, npol: bv32, ccxn: bool)
    requires pol & !p == 0 && npol & !np == 0
    requires p & e == 0 && np & e == 0 && ne & e == 0 && np & p == 0 && ne & p == 0 && ne & np == 0
    ensures CcerUpdate(ccer, p, np, ne, pol, npol, ccxn) & p == pol
    ensures CcerUpdate(ccer, p, np, ne, pol, npol, ccxn) & e == ccer & e
    ensures ccxn ==> CcerUpdate(ccer, p, np, ne, pol, npol, ccxn) & np == npol
    ensures ccxn ==> CcerUpdate(ccer, p, np, ne, pol, npol, ccxn) & ne == 0
    ensures !ccxn ==> CcerUpdate(ccer, p, np, ne, pol, npol, ccxn) & !p == ccer & !p
  {
    CcerUpdatePolarity(ccer, p, e, np, ne, pol, npol, ccxn);
    CcerUpdateEnable(ccer, p, e, np, ne, pol, npol, ccxn);
    CcerUpdateNPolarity(ccer, p, e, np, ne, pol, npol, ccxn);
    CcerUpdateNEnable(ccer, p, e, np, ne, pol, npol, ccxn);
    CcerUpdateRest(ccer, p, e, np, ne, pol, npol, ccxn);
  }

  /** The CR2 copy's update on a break timer: clear OISx and, with a
      complementary output, OISxN; then OR in the negated and the plain
      idle state. */
  function Cr2Update(cr2: bv32, ois: bv32, oisn: bv32, idle: bv32, nIdle: bv32, both: bool): bv32
  {
    if both then SetBits(SetBits(ClearBits(ClearBits(cr2, ois), oisn), nIdle), idle)
    else SetBits(ClearBits(cr2, ois), idle)
  }

  lemma Cr2UpdateIdle(cr2: bv32, ois: bv32, oisn: bv32, idle: bv32, nIdle: bv32, both: bool)
    requires idle & !ois == 0 && nIdle & !oisn == 0 && ois & oisn == 0 && oisn & ois == 0
    ensures Cr2Update(cr2, ois, oisn, idle, nIdle, both) & ois == idle
  {
    var a1 := ClearBits(cr2, ois);
    if both {
      var a2 := ClearBits(a1, oisn);
      ClearOutside(a1, oisn, ois);
      InsideApart(nIdle, oisn, ois);
      SetOutside(a2, nIdle, ois);
      SetInside(SetBits(a2, nIdle), ois, idle);
    } else {
      SetInside(a1, ois, idle);
    }
  }

  lemma Cr2UpdateNIdle(cr2: bv32, ois: bv32, oisn: bv32, idle: bv32, nIdle: bv32, both: bool)
    requires idle & !ois == 0 && nIdle & !oisn == 0 && ois & oisn == 0 && oisn & ois == 0
    ensures both ==> Cr2Update(cr2, ois, oisn, idle, nIdle, both) & oisn == nIdle
  {
  }

  lemma Cr2UpdateRestBoth(cr2: bv32, ois: bv32, oisn: bv32, idle: bv32, nIdle: bv32, both: bool)
    requires idle & !ois == 0 && nIdle & !oisn == 0 && ois & oisn == 0 && oisn & ois == 0
    ensures both ==> Cr2Update(cr2, ois, oisn, idle, nIdle, both) & !(ois | oisn) == cr2 & !(ois | oisn)
  {
  }

  lemma Cr2UpdateRestOne(cr2: bv32, ois: bv32, oisn: bv32, idle: bv32, nIdle: bv32, both: bool)
    requires idle & !ois == 0 && nIdle & !oisn == 0 && ois & oisn == 0 && oisn & ois == 0
    ensures !both ==> Cr2Update(cr2, ois, oisn, idle, nIdle, both) & !ois == cr2 & !ois
  {
  }

  /** With values inside their fields and the fields apart, OISx takes the
      idle state, OISxN the negated one, and a one-field write changes
      nothing else. */
  lemma Cr2UpdateSpec(cr2: bv32, ois: bv32, oisn: bv32, idle: bv32, nIdle: bv32, both: bool)
    requires idle & !ois == 0 && nIdle & !oisn == 0 && ois & oisn == 0 && oisn & ois == 0
    ensures Cr2Update(cr2, ois, oisn, idle, nIdle, both) & ois == idle
    ensures both ==> Cr2Update(cr2, ois, oisn, idle, nIdle, both) & oisn == nIdle
    ensures both ==> Cr2Update(cr2, ois, oisn, idle, nIdle, both) & !(ois | oisn) == cr2 & !(ois | oisn)
    ensures !both ==> Cr2Update(cr2, ois, oisn, idle, nIdle, both) & !ois == cr2 & !ois
  {
    Cr2UpdateIdle(cr2, ois, oisn, idle, nIdle, both);
    Cr2UpdateNIdle(cr2, ois, oisn, idle, nIdle, both);
    Cr2UpdateRestBoth(cr2, ois, oisn, idle, nIdle, both);
    Cr2UpdateRestOne(cr2, ois, oisn, idle, nIdle, both);
  }
}
