// Saving and restoring the Ethernet switch across a loss of power: the address lookup table behind
// its register window, and the descriptor RAM.
module Cpsw {
  import opened Words

  const ENTRIES: nat := 1024       // CPSW_MAX_NUM_ALE_ENTRY
  const ENTRY_WORDS: nat := 3      // ALE_ENTRY_WORDS
  const CPPI_WORDS: nat := 2048    // CPSW_SIZE_CPPI_RAM / 4
  const WRITE_RDZ: word := 0x8000_0000
  const CLEAR_TABLE: nat := 0x4000_0000

  type Entry = e: seq<word> | |e| == 3 witness [0, 0, 0]

  predicate ClearsTable(control: word) {
    control / CLEAR_TABLE % 2 == 1
  }

  function EmptyTable(): (t: seq<Entry>)
    ensures |t| == ENTRIES
  {
    seq(ENTRIES, i => [0, 0, 0])
  }

  // The lookup engine's registers, and the table they give access to
  class Ale {
    var table: seq<Entry>
    var window: seq<word>   // TBLW0..2
    var control: word
    var portCtl: seq<word>

    constructor (table: seq<Entry>, window: seq<word>, control: word, portCtl: seq<word>)
      requires |table| == ENTRIES && |window| == 3 && |portCtl| == 3
      ensures Valid() && this.table == table && this.control == control && this.portCtl == portCtl
    {
      this.table, this.window, this.control, this.portCtl := table, window, control, portCtl;
    }

    ghost predicate Valid()
      reads this
    {
      |table| == 1024 && |window| == 3 && |portCtl| == 3
    }

    // A write to TBLCTL moves the window into the selected entry, or the selected entry into the window.
    method WriteTblCtl(v: word)
      requires Valid()
      modifies this`table, this`window
      ensures Valid()
      ensures v >= 0x8000_0000 ==> window == old(window) && table == old(table)[v % 1024 := window]
      ensures v < 0x8000_0000 ==> table == old(table) && window == table[v % 1024]
    {
      if v >= WRITE_RDZ {
        table := table[v % ENTRIES := window];
      } else {
        window := table[v % ENTRIES];
      }
    }

    method WriteControl(v: word)
      requires Valid()
      modifies this`table, this`control
      ensures Valid() && control == v
      ensures v / 0x4000_0000 % 2 == 0 ==> table == old(table)
      ensures v / 0x4000_0000 % 2 == 1 ==> forall i :: 0 <= i < 1024 ==> table[i] == [0, 0, 0]
    {
      control := v;
      if ClearsTable(v) { table := EmptyTable(); }
    }

    // CPSWALETableEntrySet; entries lie one after the other in the saved words
    method EntrySet(aleTblIdx: nat, saved: seq<word>, at: nat)
      requires Valid() && aleTblIdx < ENTRIES && at + 3 <= |saved|
      modifies this`table, this`window
      ensures Valid() && table == old(table)[aleTblIdx := saved[at..at + 3]]
    {
      for cnt := 0 to ENTRY_WORDS
        invariant Valid() && table == old(table)
        invariant window[..cnt] == saved[at..at + cnt]
      {
        ghost var before := window;
        window := window[cnt := saved[at + cnt]];
        assert window[..cnt + 1] == before[..cnt] + [saved[at + cnt]];
      }
      assert window == saved[at..at + 3];
      WriteTblCtl(aleTblIdx + WRITE_RDZ);
    }

    // CPSWALETableEntryGet
    method EntryGet(aleTblIdx: nat) returns (entry: seq<word>)
      requires Valid() && aleTblIdx < ENTRIES
      modifies this`table, this`window
      ensures Valid() && table == old(table) && entry == table[aleTblIdx]
    {
      WriteTblCtl(aleTblIdx);
      entry := [];
      for cnt := 0 to ENTRY_WORDS
        invariant Valid() && table == old(table) && window == table[aleTblIdx]
        invariant entry == window[..cnt]
      {
        entry := entry + [window[cnt]];
      }
    }
  }

  // The part of struct cpswContext that this model restores
  datatype Context = Context(aleCtrl: word, alePortCtl: seq<word>, aleEntry: seq<word>, cppiRam: seq<word>)

  // The saved words spell out the table, three per entry.
  ghost predicate Spells(saved: seq<word>, table: seq<Entry>, n: nat) {
    && 3 * n <= |saved| && n <= |table|
    && forall i :: 0 <= i < n ==> saved[3 * i..3 * i + 3] == table[i]
  }

  // CPSWContextSave, after the DMA has been told to idle
  method ContextSave(ale: Ale, cppi: array<word>) returns (c: Context)
    requires ale.Valid() && cppi.Length == 2048
    modifies ale`table, ale`window
    ensures ale.Valid() && ale.table == old(ale.table)
    ensures c.cppiRam == cppi[..] && c.aleCtrl == ale.control && c.alePortCtl == ale.portCtl
    ensures |c.aleEntry| == 3 * 1024 && Spells(c.aleEntry, ale.table, 1024)
  {
    var cppiRam, aleEntry := [], [];
    for idx := 0 to CPPI_WORDS
      invariant cppiRam == cppi[..idx]
    {
      cppiRam := cppiRam + [cppi[idx]];
    }
    for idx := 0 to ENTRIES
      invariant ale.Valid() && ale.table == old(ale.table)
      invariant |aleEntry| == 3 * idx && Spells(aleEntry, ale.table, idx)
    {
      var entry := ale.EntryGet(idx);
      SpellsMore(aleEntry, ale.table, idx);
      aleEntry := aleEntry + entry;
    }
    c := Context(ale.control, ale.portCtl, aleEntry, cppiRam);
  }

  lemma SpellsMore(saved: seq<word>, table: seq<Entry>, n: nat)
    requires n < |table| && |saved| == 3 * n && Spells(saved, table, n)
    ensures Spells(saved + table[n], table, n + 1)
  {
    var more := saved + table[n];
    forall i | 0 <= i < n + 1 ensures more[3 * i..3 * i + 3] == table[i] {
      if i < n {
        assert more[3 * i..3 * i + 3] == saved[3 * i..3 * i + 3];
      }
    }
  }

  // CPSWContextRestore. The control word goes first: even if it clears the table, the entries
  // written afterwards are all there.
  method ContextRestore(ale: Ale, cppi: array<word>, c: Context)
    requires ale.Valid() && cppi.Length == CPPI_WORDS
    requires |c.cppiRam| == CPPI_WORDS && |c.alePortCtl| == 3 && |c.aleEntry| == 3 * ENTRIES
    modifies ale, cppi
    ensures ale.Valid() && cppi[..] == c.cppiRam
    ensures ale.control == c.aleCtrl && ale.portCtl == c.alePortCtl
    ensures Spells(c.aleEntry, ale.table, ENTRIES)
  {
    for idx := 0 to CPPI_WORDS
      invariant ale.Valid() && cppi[..idx] == c.cppiRam[..idx]
    {
      cppi[idx] := c.cppiRam[idx];
    }
    ale.WriteControl(c.aleCtrl);
    ale.portCtl := [c.alePortCtl[0], c.alePortCtl[1], c.alePortCtl[2]];
    for idx := 0 to ENTRIES
      invariant ale.Valid() && ale.control == c.aleCtrl && ale.portCtl == c.alePortCtl
      invariant cppi[..] == c.cppiRam
      invariant Spells(c.aleEntry, ale.table, idx)
    {
      ale.EntrySet(idx, c.aleEntry, idx * 3);
    }
  }

  lemma SpellsSame(saved: seq<word>, t: seq<Entry>, u: seq<Entry>)
    requires |t| == |u| == ENTRIES && Spells(saved, t, ENTRIES) && Spells(saved, u, ENTRIES)
    ensures t == u
  {
    forall i | 0 <= i < ENTRIES ensures t[i] == u[i] {
      assert saved[3 * i..3 * i + 3] == t[i] && saved[3 * i..3 * i + 3] == u[i];
    }
  }

  // A switch saved before power is lost and restored onto whatever powers up again
  method SaveRestore(ale: Ale, cppi: array<word>, powered: Ale, ram: array<word>)
    requires ale != powered && cppi != ram
    requires ale.Valid() && powered.Valid() && cppi.Length == ram.Length == CPPI_WORDS
    modifies ale, powered, ram
    ensures powered.Valid() && powered.table == old(ale.table) && ram[..] == old(cppi[..])
    ensures powered.control == old(ale.control) && powered.portCtl == old(ale.portCtl)
  {
    var c := ContextSave(ale, cppi);
    ghost var table := ale.table;
    ContextRestore(powered, ram, c);
    SpellsSame(c.aleEntry, table, powered.table);
  }
}
