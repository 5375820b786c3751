/** Little-endian words in byte arrays, as the debug module keeps them. */
module Bytes {
  function Byte(v: bv32, k: nat): bv8
    requires k < 4
  {
    if k == 0 then (v & 0xff) as bv8
    else if k == 1 then ((v >> 8) & 0xff) as bv8
    else if k == 2 then ((v >> 16) & 0xff) as bv8
    else ((v >> 24) & 0xff) as bv8
  }

  function Join(b0: bv8, b1: bv8, b2: bv8, b3: bv8): bv32 {
    (b0 as bv32) | ((b1 as bv32) << 8) | ((b2 as bv32) << 16) | ((b3 as bv32) << 24)
  }

  lemma JoinBytes(v: bv32)
    ensures Join(Byte(v, 0), Byte(v, 1), Byte(v, 2), Byte(v, 3)) == v
  {
  }

  function Write32(memory: seq<bv8>, index: nat, value: bv32): (r: seq<bv8>)
    requires 4 * index + 4 <= |memory|
    ensures |r| == |memory|
  {
    var base := 4 * index;
    memory[base := Byte(value, 0)][base + 1 := Byte(value, 1)][base + 2 := Byte(value, 2)][base + 3 := Byte(value, 3)]
  }

  function Read32(memory: seq<bv8>, index: nat): bv32
    requires 4 * index + 4 <= |memory|
  {
    var base := 4 * index;
    Join(memory[base], memory[base + 1], memory[base + 2], memory[base + 3])
  }

  /** A word that was written is read back; the other words keep their values. */
  lemma ReadWritten(memory: seq<bv8>, i: nat, value: bv32, j: nat)
    requires 4 * i + 4 <= |memory| && 4 * j + 4 <= |memory|
    ensures Read32(Write32(memory, i, value), j) == if i == j then value else Read32(memory, j)
  {
    hide Byte, Join;
    JoinBytes(value);
  }

  /** `words` written one after the other from the start. */
  function WriteAll(memory: seq<bv8>, words: seq<bv32>): (r: seq<bv8>)
    requires 4 * |words| <= |memory|
    ensures |r| == |memory|
  {
    if words == [] then memory
    else Write32(WriteAll(memory, words[..|words| - 1]), |words| - 1, words[|words| - 1])
  }

  lemma {:induction false} ReadAll(memory: seq<bv8>, words: seq<bv32>, i: nat)
    requires 4 * |words| <= |memory| && 4 * i + 4 <= |memory|
    ensures Read32(WriteAll(memory, words), i) == if i < |words| then words[i] else Read32(memory, i)
  {
    hide Read32, Write32;
    if words != [] {
      var n := |words| - 1;
      ReadAll(memory, words[..n], i);
      ReadWritten(WriteAll(memory, words[..n]), n, words[n], i);
    }
  }

  /** In place: one word, byte by byte. */
  method StoreWord(memory: array<bv8>, index: nat, value: bv32)
    requires 4 * index + 4 <= memory.Length
    modifies memory
    ensures memory[..] == Write32(old(memory[..]), index, value)
  {
    var base := 4 * index;
    memory[base] := (value & 0xff) as bv8;
    memory[base + 1] := ((value >> 8) & 0xff) as bv8;
    memory[base + 2] := ((value >> 16) & 0xff) as bv8;
    memory[base + 3] := ((value >> 24) & 0xff) as bv8;
  }

  method LoadWord(memory: array<bv8>, index: nat) returns (value: bv32)
    requires 4 * index + 4 <= memory.Length
    ensures value == Read32(memory[..], index)
  {
    var base := 4 * index;
    value := (memory[base] as bv32) | ((memory[base + 1] as bv32) << 8)
           | ((memory[base + 2] as bv32) << 16) | ((memory[base + 3] as bv32) << 24);
  }
}
