/** The two readings of an AML name agree: the length by which the interpreter advances past it and
the name that resolution parses (lai/core/ns.c, lai_amlname_parse).
*/
module NameParsing {
  import opened Wrappers
  import M = AmlMachine
  import N = NameResolution

  /** The bytes from pc on as characters. */
  function Text(code: seq<M.byte>, pc: nat): (t: string)
    ensures |t| == if pc < |code| then |code| - pc else 0
    ensures forall i :: 0 <= i < |t| ==> t[i] == code[pc + i] as char
  {
    if pc < |code| then seq<char>(|code| - pc, i requires 0 <= i < |code| - pc => code[pc + i] as char)
    else ""
  }

  lemma TextAt(code: seq<M.byte>, pc: nat, i: nat)
    ensures N.At(Text(code, pc), i) == M.Fetch(code, pc + i) as char
  {
  }

  lemma {:induction false} CaretsAgree(code: seq<M.byte>, pc: nat)
    ensures N.Carets(Text(code, pc)) == M.Carets(code, pc)
    decreases |code| - pc
  {
    if pc < |code| {
      assert Text(code, pc)[1..] == Text(code, pc + 1);
      CaretsAgree(code, pc + 1);
    }
  }

  /** The interpreter accepts the same names, and advances exactly to where the name ends. */
  lemma NameLengthIs(code: seq<M.byte>, pc: nat)
    ensures M.NameLength(code, pc)
            == if N.ParseName(Text(code, pc)).BadName? then None
               else Some(N.ParseName(Text(code, pc)).end)
  {
    var data := Text(code, pc);
    TextAt(code, pc, 0);
    CaretsAgree(code, pc);
    var prefix := if M.Fetch(code, pc) == 0x5C then 1 else M.Carets(code, pc);
    TextAt(code, pc, prefix);
    TextAt(code, pc, prefix + 1);
  }
}
