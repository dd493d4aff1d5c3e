/** The generated table that maps real opcodes to pseudo opcodes,
    src/bin/luthier-tblgen/RealToPseudoOpcodeMapBackend.cpp:32-97. */
module OpcodeMap {
  import opened Common

  /** An instruction definition: its name, the text of its `isPseudo` field and
      its `PseudoInstr` string, if it has that field. */
  datatype Inst = Inst(name: string, isPseudo: string, key: Option<string>)

  /** The first pseudo definition with this key. */
  function FirstPseudo(defs: seq<Inst>, key: string): Option<Inst> {
    if defs == [] then None
    else if defs[0].isPseudo == "1" && defs[0].key == Some(key) then Some(defs[0])
    else FirstPseudo(defs[1..], key)
  }

  lemma {:induction false} FirstPseudoGrows(defs: seq<Inst>, i: nat, key: string)
    requires i < |defs|
    ensures FirstPseudo(defs[..i + 1], key) ==
              if FirstPseudo(defs[..i], key).Some? then FirstPseudo(defs[..i], key)
              else if defs[i].isPseudo == "1" && defs[i].key == Some(key) then Some(defs[i]) else None
    decreases i
  {
    if i > 0 {
      assert defs[..i + 1][1..] == defs[1..][..i] && defs[..i][1..] == defs[1..][..i - 1];
      FirstPseudoGrows(defs[1..], i - 1, key);
    }
  }

  /** What the map of pseudo instructions answers. */
  function Find(m: map<string, Inst>, key: string): Option<Inst> {
    if key in m then Some(m[key]) else None
  }

  /** The constructor's loop over the SIMCInstr definitions, all of which have
      the key; an insertion never replaces an earlier one. */
  method BuildPseudoInsts(defs: seq<Inst>) returns (m: map<string, Inst>)
    requires forall i :: 0 <= i < |defs| ==> defs[i].key.Some?
    ensures forall key :: Find(m, key) == FirstPseudo(defs, key)
  {
    m := map[];
    assert defs[..0] == [];
    for i: nat := 0 to |defs|
      invariant forall key :: Find(m, key) == FirstPseudo(defs[..i], key)
    {
      var d := defs[i];
      ghost var before := m;
      if d.isPseudo == "1" && d.key.value !in m {
        m := m[d.key.value := d];
      }
      forall key ensures Find(m, key) == FirstPseudo(defs[..i + 1], key) {
        FirstPseudoGrows(defs, i, key);
        assert Find(before, key) == FirstPseudo(defs[..i], key);
      }
    }
    assert defs[..|defs|] == defs;
  }

  /** The instruction that a row of the table names. */
  function RowOf(inst: Inst, defs: seq<Inst>): Inst {
    if inst.isPseudo != "0" || inst.key.None? then inst
    else
      match FirstPseudo(defs, inst.key.value)
      case None => inst
      case Some(p) => p
  }

  /** emitTable: one row for every numbered instruction. */
  method EmitTable(insts: seq<Inst>, m: map<string, Inst>, ghost defs: seq<Inst>) returns (rows: seq<string>)
    requires forall key :: Find(m, key) == FirstPseudo(defs, key)
    ensures |rows| == |insts|
    ensures forall i :: 0 <= i < |insts| ==> rows[i] == RowOf(insts[i], defs).name
  {
    rows := [];
    for i: nat := 0 to |insts|
      invariant |rows| == i
      invariant forall j :: 0 <= j < i ==> rows[j] == RowOf(insts[j], defs).name
    {
      var inst, name := insts[i], insts[i].name;
      if inst.isPseudo == "0" && inst.key.Some? {
        assert Find(m, inst.key.value) == FirstPseudo(defs, inst.key.value);
        if inst.key.value in m {
          name := m[inst.key.value].name;
        }
      }
      rows := rows + [name];
    }
  }

  // ----- the table as a map of opcodes -----

  /** The target numbers its instructions, which have different names, and the
      pseudo definitions are among them. */
  ghost predicate IsTarget(insts: seq<Inst>, defs: seq<Inst>) {
    && (forall i, j :: 0 <= i < j < |insts| ==> insts[i].name != insts[j].name)
    && (forall d :: d in defs && d.isPseudo == "1" ==> d in insts)
  }

  /** The enumerator of this name. */
  function Opcode(insts: seq<Inst>, name: string): (k: nat)
    requires exists i :: 0 <= i < |insts| && insts[i].name == name
    ensures k < |insts| && insts[k].name == name
  {
    if insts[0].name == name then 0
    else
      assert exists i :: 0 <= i < |insts[1..]| && insts[1..][i].name == name by {
        var i :| 0 <= i < |insts| && insts[i].name == name;
        assert insts[1..][i - 1].name == name;
      }
      1 + Opcode(insts[1..], name)
  }

  lemma {:induction false} FirstPseudoIs(defs: seq<Inst>, key: string)
    ensures var p := FirstPseudo(defs, key);
            && (p.Some? ==> p.value in defs && p.value.isPseudo == "1" && p.value.key == Some(key))
            && (p.None? ==> forall d :: d in defs ==> !(d.isPseudo == "1" && d.key == Some(key)))
  {
    if defs != [] {
      FirstPseudoIs(defs[1..], key);
      assert forall d :: d in defs ==> d == defs[0] || d in defs[1..];
    }
  }

  /** Definition `j` is the first pseudo definition with the key. */
  predicate IsFirstPseudo(defs: seq<Inst>, key: string, j: nat) {
    && j < |defs| && defs[j].isPseudo == "1" && defs[j].key == Some(key)
    && forall i :: 0 <= i < j ==> !(defs[i].isPseudo == "1" && defs[i].key == Some(key))
  }

  lemma {:induction false} FirstPseudoAt(defs: seq<Inst>, key: string, j: nat)
    requires IsFirstPseudo(defs, key, j)
    ensures FirstPseudo(defs, key) == Some(defs[j])
    decreases j
  {
    if j > 0 {
      assert forall i :: 0 <= i < |defs[1..]| ==> defs[1..][i] == defs[i + 1];
      FirstPseudoAt(defs[1..], key, j - 1);
    }
  }

  lemma RowIsNumbered(insts: seq<Inst>, defs: seq<Inst>, i: nat)
    requires IsTarget(insts, defs) && i < |insts|
    ensures RowOf(insts[i], defs) in insts
  {
    if insts[i].isPseudo == "0" && insts[i].key.Some? {
      FirstPseudoIs(defs, insts[i].key.value);
    }
  }

  /** The table, with its names read as opcodes. */
  ghost function Mapped(insts: seq<Inst>, defs: seq<Inst>, i: nat): (k: nat)
    requires IsTarget(insts, defs) && i < |insts|
    ensures k < |insts| && insts[k] == RowOf(insts[i], defs)
  {
    RowIsNumbered(insts, defs, i);
    var row := RowOf(insts[i], defs);
    var j :| 0 <= j < |insts| && insts[j] == row;
    Opcode(insts, row.name)
  }

  /** The map is total and idempotent, and leaves every pseudo opcode alone. */
  lemma MapIsIdempotent(insts: seq<Inst>, defs: seq<Inst>, i: nat)
    requires IsTarget(insts, defs) && i < |insts|
    ensures Mapped(insts, defs, Mapped(insts, defs, i)) == Mapped(insts, defs, i)
    ensures insts[i].isPseudo != "0" ==> Mapped(insts, defs, i) == i
    ensures Mapped(insts, defs, i) != i ==> insts[Mapped(insts, defs, i)].isPseudo == "1"
  {
    var k := Mapped(insts, defs, i);
    if insts[i].isPseudo == "0" && insts[i].key.Some? {
      FirstPseudoIs(defs, insts[i].key.value);
    }
    assert RowOf(insts[k], defs) == insts[k];
    var m := Mapped(insts, defs, k);
    assert insts[m].name == insts[k].name;
  }

  /** Real opcodes that share a key map to the first pseudo with that key, or
      each to itself when there is none. */
  lemma SameKeySamePseudo(insts: seq<Inst>, defs: seq<Inst>, i: nat, j: nat, key: string)
    requires IsTarget(insts, defs) && i < |insts| && j < |insts|
    requires insts[i].isPseudo == "0" && insts[j].isPseudo == "0" && insts[i].key == Some(key) && insts[j].key == Some(key)
    ensures FirstPseudo(defs, key).Some? ==>
              Mapped(insts, defs, i) == Mapped(insts, defs, j) && insts[Mapped(insts, defs, i)] == FirstPseudo(defs, key).value
    ensures FirstPseudo(defs, key).None? ==> Mapped(insts, defs, i) == i && Mapped(insts, defs, j) == j
  {
  }

  // ----- the generated function -----

  /** The value -1 as an unsigned short. */
  const NONE: nat := 65535

  datatype Read = Value(v: nat) | PastTheEnd

  /** getPseudoOpcodeFromReal over a table of `size` rows: the guard is `>`. */
  function Generated(table: seq<nat>, opcode: nat): Read {
    if opcode > |table| then Value(NONE)
    else if opcode < |table| then Value(table[opcode] % 65536)
    else PastTheEnd
  }

  /** The generated table over the numbered instructions, as the compiler reads it. */
  ghost function TableOf(insts: seq<Inst>, defs: seq<Inst>): (t: seq<nat>)
    requires IsTarget(insts, defs)
    ensures |t| == |insts| && forall i :: 0 <= i < |insts| ==> t[i] == Mapped(insts, defs, i)
  {
    seq(|insts|, i requires 0 <= i < |insts| => Mapped(insts, defs, i))
  }

  /** Asking the generated function for the answer to its own answer changes
      nothing, for every 16-bit opcode but the table size, for which there is no
      answer; and pseudo opcodes are their own answers. */
  lemma GeneratedIsIdempotentIff(insts: seq<Inst>, defs: seq<Inst>, opcode: nat)
    requires IsTarget(insts, defs) && opcode <= NONE && |insts| <= NONE
    ensures var t := TableOf(insts, defs); var r := Generated(t, opcode);
            (r.Value? && Generated(t, r.v) == r) <==> opcode != |insts|
    ensures opcode < |insts| && insts[opcode].isPseudo != "0" ==> Generated(TableOf(insts, defs), opcode) == Value(opcode)
  {
    if opcode < |insts| { MapIsIdempotent(insts, defs, opcode); }
  }

  /** Which instruction the map answers with. */
  lemma MappedIs(insts: seq<Inst>, defs: seq<Inst>, i: nat)
    requires IsTarget(insts, defs) && i < |insts|
    ensures var inst, k := insts[i], Mapped(insts, defs, i);
            && (forall j: nat :: inst.isPseudo == "0" && inst.key.Some? && IsFirstPseudo(defs, inst.key.value, j) ==> insts[k] == defs[j])
            && (inst.isPseudo != "0" || inst.key.None? ==> k == i)
            && ((forall d :: d in defs ==> !(d.isPseudo == "1" && d.key == inst.key)) ==> k == i)
  {
    var inst := insts[i];
    if inst.isPseudo == "0" && inst.key.Some? {
      forall j: nat | IsFirstPseudo(defs, inst.key.value, j) ensures FirstPseudo(defs, inst.key.value) == Some(defs[j]) {
        FirstPseudoAt(defs, inst.key.value, j);
      }
      FirstPseudoIs(defs, inst.key.value);
    }
    SameRow(insts, defs, i);
  }

  /** The answer of the generated function: for a real instruction with a key, the
      first pseudo definition with that key, if there is one; for every other
      instruction, itself; and 65535, the value -1, for every opcode past the
      table size. */
  lemma GeneratedAnswers(insts: seq<Inst>, defs: seq<Inst>, opcode: nat)
    requires IsTarget(insts, defs) && |insts| <= 65535
    ensures opcode > |insts| ==> Generated(TableOf(insts, defs), opcode) == Value(65535)
    ensures opcode < |insts| ==>
              var r, inst := Generated(TableOf(insts, defs), opcode), insts[opcode];
              && r.Value? && r.v < |insts|
              && (forall j: nat :: inst.isPseudo == "0" && inst.key.Some? && IsFirstPseudo(defs, inst.key.value, j) ==> insts[r.v] == defs[j])
              && (inst.isPseudo != "0" || inst.key.None? ==> r.v == opcode)
              && ((forall d :: d in defs ==> !(d.isPseudo == "1" && d.key == inst.key)) ==> r.v == opcode)
  {
    if opcode < |insts| {
      MappedIs(insts, defs, opcode);
      assert Generated(TableOf(insts, defs), opcode) == Value(Mapped(insts, defs, opcode));
    }
  }

  lemma SameRow(insts: seq<Inst>, defs: seq<Inst>, i: nat)
    requires IsTarget(insts, defs) && i < |insts|
    ensures RowOf(insts[i], defs) == insts[i] ==> Mapped(insts, defs, i) == i
  {
    var k := Mapped(insts, defs, i);
    assert k != i ==> insts[k].name != insts[i].name;
  }
}
