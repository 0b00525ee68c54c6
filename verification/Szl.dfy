/** The system-status tables the simulator serves. */
module Szl {
  import opened Bytes

  function Ascii(s: string): (r: seq<u8>)
    ensures |r| == |s|
  {
    Map((c: char) => Low8(c as int), s)
  }

  function Filled(n: nat, v: u8): (s: seq<u8>)
    ensures |s| == n
  {
    seq<u8>(n, _ => v)
  }

  /** An index and a text, cut or filled up with blanks to 32 characters. */
  function TextEntry(index: u16, text: string): (s: seq<u8>)
    ensures |s| == 34
  {
    var t := Ascii(text);
    Be16(index) + (if |t| >= 32 then t[..32] else t + Filled(32 - |t|, 0x20))
  }

  function Quotient(n: nat, d: nat): nat
    requires d > 0
  {
    n / d
  }

  function Block(id: u16, index: u16, entryLen: u16, entries: seq<u8>): (s: seq<u8>)
    ensures |s| == 8 + |entries|
  {
    var count := if entryLen > 0 then Low16(Quotient(|entries|, entryLen)) else 0;
    Be16(id) + Be16(index) + Be16(entryLen) + Be16(count) + entries
  }

  function OrderCode(): (s: seq<u8>)
    ensures |s| == 28
  {
    [0x00, 0x01] + Ascii("Simulated PLC       ") + [0, 1, 0, 0, 0, 0]
  }

  function CpuInfo(): (s: seq<u8>)
    ensures |s| == 7 * 34
  {
    TextEntry(1, "SimPLC") + TextEntry(2, "CPU Simulated") + TextEntry(3, "SimPLC") + TextEntry(4, "(C) Simulated")
    + TextEntry(5, "SIM-0000000001") + TextEntry(7, "CPU Simulated") + TextEntry(8, "SimPLC")
  }

  function Table(id: u16): (s: seq<u8>)
    ensures |s| <= 246
  {
    match id
    case 0x0011 => Block(id, 0, 28, OrderCode())
    case 0x0032 => Block(id, 0, 16, [3, 0, 3, 0, 3] + Filled(11, 0))
    case 0x001C => Block(id, 0, 34, CpuInfo())
    case 0x0131 =>
      Block(id, 1, 14, [0x00, 0x01, 0x01, 0xE0, 0x00, 0x20, 0x00, 0x02, 0xDC, 0x6C, 0x00, 0x00, 0x61, 0xA8])
    case 0x0424 => Block(id, 0, 12, [0, 0, 0, 0x08] + Filled(8, 0))
    case _ => Block(id, 0, 0, [])
  }
}
