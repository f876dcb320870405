/** `NSEvent.ModifierFlags` as modifier.swift and app.swift extend it: the
    initialiser that folds a set of keycodes into a flag word, and the
    `contains(modifier:)` test. The flag bits themselves are AppKit's
    device-independent modifier flags. */
module ModifierFlags {
  import opened Keycodes

  /** The raw value of a modifier flag set, an unsigned machine word. */
  type Flags = bv64

  const CapsLockFlag: Flags := 1 << 16
  const ShiftFlag: Flags := 1 << 17
  const ControlFlag: Flags := 1 << 18
  const OptionFlag: Flags := 1 << 19
  const CommandFlag: Flags := 1 << 20
  const FunctionFlag: Flags := 1 << 23
  /** `deviceIndependentFlagsMask`: where every modifier flag lives. */
  const DeviceIndependentMask: Flags := 0xFFFF_0000

  /** A keycode's raw value as the `UInt16` the fold works on. */
  function Bits(k: Keycode): bv16
  {
    Raw(k) as bv16
  }

  /** `keys.reduce(0) { $0 | $1.rawValue }`, with the set's iteration order
      given as the sequence `order`. The result has no bit above 0x7F. */
  function Reduce(order: seq<Keycode>): (r: bv16)
    ensures r < 0x80
    ensures order == [] ==> r == 0
  {
    if order == [] then 0 else Reduce(order[..|order| - 1]) | Bits(order[|order| - 1])
  }

  /** `Modifier(keys)`: the fold widened to a flag word. */
  function KeycodeMask(order: seq<Keycode>): (r: Flags)
    ensures r < 0x80
  {
    Reduce(order) as Flags
  }

  /** Every key's bits are in the fold. */
  lemma {:induction false} ReduceHasMember(order: seq<Keycode>, k: Keycode)
    requires k in order
    ensures Reduce(order) | Bits(k) == Reduce(order)
  {
    var last := |order| - 1;
    if order[last] != k {
      assert k in order[..last];
      ReduceHasMember(order[..last], k);
    }
  }

  /** The fold of a subset is absorbed by the fold of the superset. */
  lemma {:induction false} ReduceAbsorbsSubset(s: seq<Keycode>, t: seq<Keycode>)
    requires forall k :: k in s ==> k in t
    ensures Reduce(s) | Reduce(t) == Reduce(t)
  {
    if s != [] {
      var last := |s| - 1;
      ReduceAbsorbsSubset(s[..last], t);
      ReduceHasMember(t, s[last]);
    }
  }

  /** The fold does not depend on the order in which the set is walked, nor
      on repeats: two walks of the same set give the same value. */
  lemma ReduceIsOrderIndependent(s: seq<Keycode>, t: seq<Keycode>)
    requires forall k :: k in s <==> k in t
    ensures Reduce(s) == Reduce(t)
  {
    ReduceAbsorbsSubset(s, t);
    ReduceAbsorbsSubset(t, s);
  }

  /** A mask built by the fold never holds a modifier flag: every keycode's
      raw value lies below bit 16, where the flags start. */
  lemma KeycodeMaskHasNoFlag(order: seq<Keycode>)
    ensures KeycodeMask(order) & DeviceIndependentMask == 0
    ensures KeycodeMask(order) & (OptionFlag | ControlFlag) == 0
  {
  }

  /** The option set's own `contains`: every bit of `flag` is in `flags`. */
  predicate Includes(flags: Flags, flag: Flags)
  {
    flags & flag == flag
  }

  /** The flag of each modifier keycode that has one, and 0 for every other
      keycode. */
  function FlagOf(k: Keycode): Flags
  {
    match k
    case Special(s) =>
      (match s
        case Shift => ShiftFlag
        case Control => ControlFlag
        case Command => CommandFlag
        case Option => OptionFlag
        case CapsLock => CapsLockFlag
        case _ => 0)
    case FunctionRow(f) => if f.Function? then FunctionFlag else 0
    case _ => 0
  }

  /** The flag word a set of modifier keycodes stands for: the flags of its
      modifier keys, and nothing for any other key. None of its bits is in the
      low half-word that keycode raw values occupy. */
  function FlagsOf(keys: set<Keycode>): (r: Flags)
    ensures r & 0xFFFF == 0
  {
    (if Special(Shift) in keys then ShiftFlag else 0)
    | (if Special(Control) in keys then ControlFlag else 0)
    | (if Special(Command) in keys then CommandFlag else 0)
    | (if Special(Option) in keys then OptionFlag else 0)
    | (if Special(CapsLock) in keys then CapsLockFlag else 0)
    | (if FunctionRow(Function) in keys then FunctionFlag else 0)
  }

  /** A flag is set exactly when its keycode is in the set. */
  lemma FlagsOfHasExactly(keys: set<Keycode>)
    ensures Includes(FlagsOf(keys), ShiftFlag) <==> Special(Shift) in keys
    ensures Includes(FlagsOf(keys), ControlFlag) <==> Special(Control) in keys
    ensures Includes(FlagsOf(keys), CommandFlag) <==> Special(Command) in keys
    ensures Includes(FlagsOf(keys), OptionFlag) <==> Special(Option) in keys
    ensures Includes(FlagsOf(keys), CapsLockFlag) <==> Special(CapsLock) in keys
    ensures Includes(FlagsOf(keys), FunctionFlag) <==> FunctionRow(Function) in keys
  {
  }

  /** `contains(modifier:)` as written: the OR of the two words is not zero. */
  function ContainsModifier(flags: Flags, modifier: Flags): bool
  {
    flags | modifier != 0
  }

  /** The test holds exactly when either word is non-zero, so it is not a
      containment test: shift alone "contains" control, and any word
      "contains" the empty mask unless it is empty itself. */
  lemma ContainsModifierIsNotContainment(flags: Flags, modifier: Flags)
    ensures ContainsModifier(flags, modifier) <==> flags != 0 || modifier != 0
    ensures ContainsModifier(ShiftFlag, ControlFlag) && !Includes(ShiftFlag, ControlFlag)
    ensures modifier == 0 ==> (ContainsModifier(flags, modifier) <==> flags != 0)
  {
  }
}
