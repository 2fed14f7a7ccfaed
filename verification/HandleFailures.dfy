/** Runs from boot, each of calls that all fit but the last, after which a reference count
    is wrong: the four situations the exact conditions of HandleCalls exclude. */
module HandleFailures {
  import opened Composition
  import opened Sequences
  import opened Sums
  import opened Handles
  import opened HandleRefs
  import opened HandleCalls

  const FULL_RIGHTS: nat := 7

  /** A channel between entries 3 and 4 of the first process. */
  const MAKE := MakeChannel(0, FULL_RIGHTS, FULL_RIGHTS, true)
  const E0 := Endpoint(0, false)
  const E1 := Endpoint(0, true)

  function Made(): Table {
    Table(NewTable().entries[3 := Entry(Channel(E0, FULL_RIGHTS), 0)][4 := Entry(Channel(E1, FULL_RIGHTS), 0)], 5)
  }

  lemma Onward(steps: seq<Step>, s: Step, st: State, st': State)
    requires Run(steps) == Some(st) && Enabled(st, s) && Fits(st, s) && Next(st, s) == st'
    ensures Run(steps + [s]) == Some(st') && Inv(st')
  {
    hide Inv, Enabled, Fits, Next;
    assert (steps + [s])[..|steps|] == steps;
    RunInv(steps + [s]);
  }

  /** Handing out two ends at entries `k0` and `k1`, the lowest that are free. */
  lemma Creates(st: State, k0: nat, k1: nat)
    requires 0 < |st.tables| && |st.tables[0].entries| == CAPACITY && k0 < k1 < CAPACITY
    requires FreeFrom(st.tables[0].entries, 0) == Some(k0) && FreeFrom(st.tables[0].entries, k0 + 1) == Some(k1)
    ensures Enabled(st, MAKE) && Fits(st, MAKE)
    ensures var t, (a, b) := st.tables[0], Ends(st.heap);
            Next(st, MAKE) == State(st.tables[0 := Table(t.entries[k0 := Entry(Channel(a, FULL_RIGHTS), t.entries[k0].generation)]
                                                          [k1 := Entry(Channel(b, FULL_RIGHTS), t.entries[k1].generation)], t.count + 2)],
                                    Create(st.heap))
  {
    hide CreateChannel, Create, FreeFrom;
    var t := st.tables[0];
    var (a, b) := Ends(st.heap);
    CreateIs(st, 0, FULL_RIGHTS, FULL_RIGHTS, true);
    SecondFree(t, a, FULL_RIGHTS);
  }

  lemma NextFree(entries: seq<Entry>, i: nat, k: nat)
    requires i <= k < |entries| && entries[k].item.Empty? && forall j | i <= j < k :: !entries[j].item.Empty?
    ensures FreeFrom(entries, i) == Some(k)
  {
  }

  function Start(): State {
    State([Made()], Create(Heap(0, map[], [], 0)))
  }

  lemma Starts()
    ensures Run([MAKE]) == Some(Start()) && Inv(Start())
  {
    hide Inv, Fits, Create, Enabled, Next;
    var st, entries := Boot(), NewTable().entries;
    NextFree(entries, 0, 3);
    NextFree(entries, 4, 4);
    Creates(st, 3, 4);
    assert [Made()] == [NewTable()][0 := Made()];
    assert Run([]) == Some(st);
    Onward([], MAKE, st, Start());
    assert [] + [MAKE] == [MAKE];
  }

  /** Handle 4 is entry 3 in its first generation, 260 the same entry in its second:
      replacing the last reference by itself. */
  lemma SameSlotDup3Fails()
    ensures var r, s := Run([MAKE]), Dup3Fd(0, 4, 260);
            r.Some? && Enabled(r.value, s) && !Inv(Next(r.value, s))
  {
    hide Inv, Create, Total;
    Starts();
    OneNames();
    Dup3Breaks(Start(), 0, 4, 260);
  }

  lemma OneNames()
    ensures Total([Made()], E0) == 1
  {
    hide NewTable;
    NewTableOk();
    NoneNamed(NewTable().entries, E0);
    NewSize();
    var a := NewTable().entries[3 := Entry(Channel(E0, FULL_RIGHTS), 0)];
    SumUpdate(NewTable().entries, 3, Entry(Channel(E0, FULL_RIGHTS), 0), Names(E0));
    SumUpdate(a, 4, Entry(Channel(E1, FULL_RIGHTS), 0), Names(E0));
    assert !NewTable().entries[3].item.Channel? && !a[4].item.Channel? by {
      assert NewTable().entries[3] in NewTable().entries && NewTable().entries[4] in NewTable().entries;
    }
    LastTotals([], Made(), E0);
    assert [] + [Made()] == [Made()] && Total([], E0) == 0;
  }

  lemma NewSize()
    ensures |NewTable().entries| == CAPACITY
  {
  }

  /** A fork that cannot make its task after the handles were inherited. */
  lemma LateForkFails()
    ensures var r, s := Run([MAKE]), ForkFrom(0, false);
            r.Some? && Enabled(r.value, s) && !Inv(Next(r.value, s))
  {
    hide Inv, Create, Fork;
    Starts();
    assert Made().entries[3] in Made().entries && Made().entries[3].item.Channel?;
    ForkExactly(Start(), 0, false);
  }

  // ---------------------------------------------------------------- a generation that no handle can carry

  /** Entry 5 in the last generation a handle can carry. */
  const LAST: Handle := 0xFFFF_FF06

  function Copied(): State {
    State([Put(Made(), 5, Entry(Channel(E0, FULL_RIGHTS), 0xFF_FFFF))], Retain(Start().heap, E0))
  }

  function Closed5(): State {
    State([Table(Made().entries[5 := Entry(Empty, 0x100_0000)], 5)], Release(Copied().heap, E0))
  }

  lemma MadeFacts()
    ensures var t := Made();
            && |t.entries| == CAPACITY && t.entries[3] == Entry(Channel(E0, FULL_RIGHTS), 0) && t.entries[5].item.Empty?
            && Lookup(t, 4) == (OK, 3) && Dup3Target(LAST) == Some((5, 0xFF_FFFF))
  {
  }

  lemma CopyGoes()
    ensures var st, s := Start(), Dup3Fd(0, 4, LAST);
            Enabled(st, s) && Fits(st, s) && Next(st, s) == Copied()
  {
    hide Made, Create, Retain, Release, Lookup, Index, Generation, Put, Dup3Target;
    MadeFacts();
    assert [Made()][0 := Put(Made(), 5, Entry(Channel(E0, FULL_RIGHTS), 0xFF_FFFF))] == Copied().tables;
  }

  lemma Copies()
    ensures Run([MAKE, Dup3Fd(0, 4, LAST)]) == Some(Copied()) && Inv(Copied())
  {
    hide Inv, Start, Copied, Enabled, Fits, Next, Run;
    Starts();
    CopyGoes();
    Onward([MAKE], Dup3Fd(0, 4, LAST), Start(), Copied());
    assert [MAKE] + [Dup3Fd(0, 4, LAST)] == [MAKE, Dup3Fd(0, 4, LAST)];
  }

  const WORN: seq<Step> := [MAKE, Dup3Fd(0, 4, LAST), CloseFd(0, LAST)]

  lemma CopiedFacts()
    ensures var t := Copied().tables[0];
            && |Copied().tables| == 1 && |t.entries| == CAPACITY && t.entries[5].item == Channel(E0, FULL_RIGHTS)
            && Lookup(t, LAST) == (OK, 5) && Handles.Close(t, LAST) == (Closed5().tables[0], OK)
  {
    hide Retain, Release, Create, NewTable;
    NewSize();
    var t := Made();
    assert t.entries[5 := Entry(Channel(E0, FULL_RIGHTS), 0xFF_FFFF)][5 := Entry(Empty, 0x100_0000)] == t.entries[5 := Entry(Empty, 0x100_0000)];
    MadeFacts();
  }

  lemma CloseGoes()
    ensures var st, s := Copied(), CloseFd(0, LAST);
            Enabled(st, s) && Fits(st, s) && Next(st, s) == Closed5()
  {
    hide Retain, Release, Create, Made, Lookup, Handles.Close, Put;
    CopiedFacts();
    assert Copied().tables[0 := Closed5().tables[0]] == Closed5().tables;
  }

  lemma Closes5()
    ensures Run(WORN) == Some(Closed5()) && Inv(Closed5())
  {
    hide Inv, Copied, Closed5, Enabled, Fits, Next, Run;
    Copies();
    CloseGoes();
    Onward([MAKE, Dup3Fd(0, 4, LAST)], CloseFd(0, LAST), Copied(), Closed5());
    assert [MAKE, Dup3Fd(0, 4, LAST)] + [CloseFd(0, LAST)] == WORN;
  }

  lemma FreeIn5()
    ensures FreeFrom(Closed5().tables[0].entries, 0) == Some(5) && FreeFrom(Closed5().tables[0].entries, 6) == Some(6)
  {
    var entries := Closed5().tables[0].entries;
    assert forall j | 0 <= j < 5 :: !entries[j].item.Empty?;
    NextFree(entries, 0, 5);
    NextFree(entries, 6, 6);
  }

  /** Creation whose handles cannot be written back: the entry cannot be closed again. */
  lemma UndoneCreateFails()
    ensures var r, s := Run(WORN), MakeChannel(0, FULL_RIGHTS, FULL_RIGHTS, false);
            r.Some? && Enabled(r.value, s) && !Inv(Next(r.value, s))
  {
    hide Inv, Create, Retain, Release, CreateChannel;
    Closes5();
    FreeIn5();
    CreateBreaks(Closed5(), 0, FULL_RIGHTS, FULL_RIGHTS, false);
  }

  /** Exit of a process with such an entry in use: the reference is dropped, the entry stays. */
  lemma ExitFails()
    ensures var r, s := Run(WORN + [MAKE]), ExitOf(0);
            r.Some? && Enabled(r.value, s) && !Inv(Next(r.value, s))
  {
    hide Inv, Create, Retain, Release, Exit;
    Closes5();
    FreeIn5();
    var st := Closed5();
    Creates(st, 5, 6);
    var st' := Next(st, MAKE);
    Onward(WORN, MAKE, st, st');
    var x := st'.tables[0].entries[5];
    assert x in st'.tables[0].entries && x.item.Channel? && !Nameable(x.generation);
    ExitExactly(st', 0);
  }
}
