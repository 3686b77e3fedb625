/**
  The channel store of one touch panel: the boolean, analog (ushort) and
  serial (string) sigs of the panel, each addressed by a join number.

  A panel has two directions per sig type. The *output* sigs carry values
  arriving from the panel (a button press, a slider position); the *input*
  sigs carry feedback the program writes back for the panel to render.
  Join numbers are scoped per direction and type, so boolean join 31 and
  analog join 31 are unrelated slots.

  A sig that was never written reads as the framework's default value:
  false, 0 or the empty string.
 */
module ChannelStore {

  /** An analog sig value: an unsigned 16-bit integer. */
  type UShort = x: int | 0 <= x < 0x1_0000

  const MaxUShort: UShort := 0xFFFF

  /** Value of join `j` in `m`, or `absent` when the join was never written. */
  function Read<T>(m: map<nat, T>, j: nat, absent: T): (v: T)
    ensures j in m ==> v == m[j]
    ensures j !in m ==> v == absent
  {
    if j in m then m[j] else absent
  }

  datatype Panel = Panel(
    boolIn: map<nat, bool>,      // BooleanInput: digital feedback to the panel
    ushortIn: map<nat, UShort>,  // UShortInput: analog feedback to the panel
    stringIn: map<nat, string>,  // StringInput: serial feedback to the panel
    boolOut: map<nat, bool>,     // BooleanOutput: digital values from the panel
    ushortOut: map<nat, UShort>, // UShortOutput: analog values from the panel
    stringOut: map<nat, string>  // StringOutput: serial values from the panel
  ) {
    function BoolIn(j: nat): bool { Read(boolIn, j, false) }
    function UShortIn(j: nat): UShort { Read(ushortIn, j, 0) }
    function StringIn(j: nat): string { Read(stringIn, j, "") }
    function BoolOut(j: nat): bool { Read(boolOut, j, false) }
    function UShortOut(j: nat): UShort { Read(ushortOut, j, 0) }
    function StringOut(j: nat): string { Read(stringOut, j, "") }

    /** Writes digital feedback `v` on join `j`. */
    function SetBoolIn(j: nat, v: bool): (r: Panel)
      ensures r.BoolIn(j) == v
      ensures forall k :: k != j ==> r.BoolIn(k) == BoolIn(k)
      ensures r.ushortIn == ushortIn && r.stringIn == stringIn && SameOutputs(this, r)
    {
      this.(boolIn := boolIn[j := v])
    }

    /** Writes analog feedback `v` on join `j`. */
    function SetUShortIn(j: nat, v: UShort): (r: Panel)
      ensures r.UShortIn(j) == v
      ensures forall k :: k != j ==> r.UShortIn(k) == UShortIn(k)
      ensures r.boolIn == boolIn && r.stringIn == stringIn && SameOutputs(this, r)
    {
      this.(ushortIn := ushortIn[j := v])
    }

    /** Writes serial feedback `v` on join `j`. */
    function SetStringIn(j: nat, v: string): (r: Panel)
      ensures r.StringIn(j) == v
      ensures forall k :: k != j ==> r.StringIn(k) == StringIn(k)
      ensures r.boolIn == boolIn && r.ushortIn == ushortIn && SameOutputs(this, r)
    {
      this.(stringIn := stringIn[j := v])
    }
  }

  /** A panel on which nothing has been sent or written yet. */
  const EmptyPanel := Panel(map[], map[], map[], map[], map[], map[])

  /** The values arriving from the panel are the same in `p` and `q`. */
  ghost predicate SameOutputs(p: Panel, q: Panel) {
    p.boolOut == q.boolOut && p.ushortOut == q.ushortOut && p.stringOut == q.stringOut
  }

  /** The feedback slots are identical in `p` and `q`. */
  ghost predicate SameInputs(p: Panel, q: Panel) {
    p.boolIn == q.boolIn && p.ushortIn == q.ushortIn && p.stringIn == q.stringIn
  }

  /**
    Going from `p` to `q`, only the feedback slots named in `bools`,
    `ushorts` and `strings` may read differently.
   */
  ghost predicate FeedbackWritesOnly(p: Panel, q: Panel, bools: set<nat>, ushorts: set<nat>, strings: set<nat>) {
    && (forall j :: j !in bools ==> q.BoolIn(j) == p.BoolIn(j))
    && (forall j :: j !in ushorts ==> q.UShortIn(j) == p.UShortIn(j))
    && (forall j :: j !in strings ==> q.StringIn(j) == p.StringIn(j))
  }

  /**
    Going from `p` to `q`, only the feedback slots named in `bools`,
    `ushorts` and `strings` may read differently, and nothing arriving from
    the panel changed.
   */
  ghost predicate WritesOnly(p: Panel, q: Panel, bools: set<nat>, ushorts: set<nat>, strings: set<nat>) {
    SameOutputs(p, q) && FeedbackWritesOnly(p, q, bools, ushorts, strings)
  }
}
