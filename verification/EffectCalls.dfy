/** The recorded instantiations of polymorphic calls: filled in expression order from the
    final rows, and replayed by the validator of the contract stage. */
module EffectCalls {
  import opened Options
  import opened EffectProgram
  import opened EffectRows

  /** One call's instantiation: slices of the two arenas, and the unresolved parameter. */
  datatype Entry = Entry(call: nat, definition: nat, parameter: Option<nat>,
                         argumentOffset: nat, argumentCount: nat, rowOffset: nat, rowCount: nat)

  /** The call table: entries indexed by expression, arguments and rows in two arenas. */
  datatype Table = Table(entries: seq<Option<Entry>>, arguments: Row, rows: Row)

  predicate Polymorphic(p: Program, s: CallSite)
    requires SiteInRange(p, s)
  {
    s.ToFunction? && p.functions[s.target].polymorphic
  }

  predicate CallsInRange(p: Program, calls: seq<CallSite>) {
    forall i :: 0 <= i < |calls| ==> SiteInRange(p, calls[i])
  }

  function ArgumentsOf(p: Program, rows: seq<Row>, s: CallSite): Row
    requires |rows| == |p.functions| && SiteInRange(p, s)
  {
    if Polymorphic(p, s) then CallArguments(p, rows, s.callbacks) else []
  }

  function RowOfCall(p: Program, rows: seq<Row>, s: CallSite): Row
    requires |rows| == |p.functions| && SiteInRange(p, s)
  {
    if Polymorphic(p, s) then CallRow(p, rows, s.target, s.callbacks) else []
  }

  function AllArguments(p: Program, rows: seq<Row>, calls: seq<CallSite>): Row
    requires |rows| == |p.functions| && CallsInRange(p, calls)
  {
    if calls == [] then []
    else AllArguments(p, rows, calls[..|calls| - 1]) + ArgumentsOf(p, rows, calls[|calls| - 1])
  }

  function AllRows(p: Program, rows: seq<Row>, calls: seq<CallSite>): Row
    requires |rows| == |p.functions| && CallsInRange(p, calls)
  {
    if calls == [] then []
    else AllRows(p, rows, calls[..|calls| - 1]) + RowOfCall(p, rows, calls[|calls| - 1])
  }

  /** The entry of expression i: its slices start where those of all earlier calls end. */
  function EntryOf(p: Program, rows: seq<Row>, calls: seq<CallSite>, i: nat): Option<Entry>
    requires |rows| == |p.functions| && CallsInRange(p, calls) && i < |calls|
  {
    if !Polymorphic(p, calls[i]) then None
    else Some(Entry(i, calls[i].target, CallbackTail(calls[i].callbacks),
                    |AllArguments(p, rows, calls[..i])|, |ArgumentsOf(p, rows, calls[i])|,
                    |AllRows(p, rows, calls[..i])|, |RowOfCall(p, rows, calls[i])|))
  }

  /** What recording leaves behind: entries for exactly the polymorphic calls, whose slices
      tile both arenas in expression order and hold the instantiated rows. */
  ghost predicate Recorded(p: Program, rows: seq<Row>, calls: seq<CallSite>, t: Table)
    requires |rows| == |p.functions| && CallsInRange(p, calls)
  {
    && |t.entries| == |calls|
    && t.arguments == AllArguments(p, rows, calls)
    && t.rows == AllRows(p, rows, calls)
    && forall i :: 0 <= i < |calls| ==> t.entries[i] == EntryOf(p, rows, calls, i)
  }

  function AtomsFree(row: Row): (b: bool)
    ensures b <==> forall a :: a in row ==> AuthorityFree(a)
  {
    row == [] || (AuthorityFree(row[0]) && AtomsFree(row[1..]))
  }

  function CallbacksFree(p: Program, rows: seq<Row>, cbs: seq<CallbackArgument>): (b: bool)
    requires |rows| == |p.functions|
    requires forall i :: 0 <= i < |cbs| && cbs[i].Callback? ==> SourceInRange(p, cbs[i].actual)
    ensures b <==> forall i, a :: 0 <= i < |cbs| && cbs[i].Callback? && a in SourceAtoms(p, rows, cbs[i].actual) ==> AuthorityFree(a)
  {
    forall i :: 0 <= i < |cbs| && cbs[i].Callback? ==> AtomsFree(SourceAtoms(p, rows, cbs[i].actual))
  }

  /** A call is in order if its effect argument is determined and authority-free. */
  ghost predicate CallInOrder(p: Program, rows: seq<Row>, s: CallSite)
    requires |rows| == |p.functions| && SiteInRange(p, s)
  {
    Polymorphic(p, s) ==>
      && (exists i :: 0 <= i < |s.callbacks| && s.callbacks[i].Callback?)
      && CallbacksFree(p, rows, s.callbacks)
  }

  /** One call: its entry, what it adds to both arenas, and whether it is in order. */
  method RecordCall(p: Program, rows: seq<Row>, calls: seq<CallSite>, i: nat, arguments: Row, arena: Row)
    returns (entry: Option<Entry>, own: Row, row: Row, ordered: bool)
    requires |rows| == |p.functions| && CallsInRange(p, calls) && i < |calls|
    requires arguments == AllArguments(p, rows, calls[..i]) && arena == AllRows(p, rows, calls[..i])
    ensures entry == EntryOf(p, rows, calls, i)
    ensures own == ArgumentsOf(p, rows, calls[i]) && row == RowOfCall(p, rows, calls[i])
    ensures ordered <==> CallInOrder(p, rows, calls[i])
  {
    hide AllArguments, AllRows, CallArguments, CallRow, CallbacksFree;
    if !Polymorphic(p, calls[i]) { return None, [], [], true; }
    var determined;
    own, row, determined := InferCallRow(p, rows, calls[i].target, calls[i].callbacks);
    ordered := determined && CallbacksFree(p, rows, calls[i].callbacks);
    entry := Some(Entry(i, calls[i].target, CallbackTail(calls[i].callbacks), |arguments|, |own|, |arena|, |row|));
  }

  /** The recording pass over all call expressions, in expression order. */
  method RecordCalls(p: Program, rows: seq<Row>, calls: seq<CallSite>) returns (t: Table, clean: bool)
    requires |rows| == |p.functions| && CallsInRange(p, calls)
    ensures Recorded(p, rows, calls, t)
    ensures clean <==> forall i :: 0 <= i < |calls| ==> CallInOrder(p, rows, calls[i])
  {
    var entries: seq<Option<Entry>>, arguments: Row, arena: Row := [], [], [];
    clean := true;
    var i := 0;
    hide AllArguments, AllRows, ArgumentsOf, RowOfCall, EntryOf, CallInOrder;
    NothingRecorded(p, rows, calls);
    while i < |calls|
      invariant 0 <= i <= |calls| && |entries| == i
      invariant arguments == AllArguments(p, rows, calls[..i]) && arena == AllRows(p, rows, calls[..i])
      invariant forall j :: 0 <= j < i ==> entries[j] == EntryOf(p, rows, calls, j)
      invariant clean <==> forall j :: 0 <= j < i ==> CallInOrder(p, rows, calls[j])
    {
      RecordStep(p, rows, calls, i);
      var entry, own, row, ordered := RecordCall(p, rows, calls, i, arguments, arena);
      entries, arguments, arena := entries + [entry], arguments + own, arena + row;
      clean := clean && ordered;
      i := i + 1;
    }
    assert calls[..i] == calls;
    t := Table(entries, arguments, arena);
  }

  lemma {:induction false} NothingRecorded(p: Program, rows: seq<Row>, calls: seq<CallSite>)
    requires |rows| == |p.functions| && CallsInRange(p, calls)
    ensures AllArguments(p, rows, calls[..0]) == [] && AllRows(p, rows, calls[..0]) == []
  {
  }

  lemma {:induction false} RecordStep(p: Program, rows: seq<Row>, calls: seq<CallSite>, i: nat)
    requires |rows| == |p.functions| && CallsInRange(p, calls) && i < |calls|
    ensures AllArguments(p, rows, calls[..i + 1]) == AllArguments(p, rows, calls[..i]) + ArgumentsOf(p, rows, calls[i])
    ensures AllRows(p, rows, calls[..i + 1]) == AllRows(p, rows, calls[..i]) + RowOfCall(p, rows, calls[i])
  {
    assert calls[..i + 1][..i] == calls[..i];
  }

  // -------------------------------------------------------------------- replaying

  function Repeats(row: Row): (b: bool)
    ensures !b <==> NoRepeats(row)
  {
    exists i, j :: 0 <= i < j < |row| && row[i] == row[j]
  }

  predicate Determined(s: CallSite) {
    s.ToFunction? && exists i :: 0 <= i < |s.callbacks| && s.callbacks[i].Callback?
  }

  /** The arguments of the calls among the first n that have an entry. */
  ghost function PresentArguments(p: Program, rows: seq<Row>, calls: seq<CallSite>, entries: seq<Option<Entry>>, n: nat): Row
    requires |rows| == |p.functions| && CallsInRange(p, calls) && n <= |calls| == |entries|
  {
    if n == 0 then []
    else PresentArguments(p, rows, calls, entries, n - 1) + if entries[n - 1].Some? then ArgumentsOf(p, rows, calls[n - 1]) else []
  }

  ghost function PresentRows(p: Program, rows: seq<Row>, calls: seq<CallSite>, entries: seq<Option<Entry>>, n: nat): Row
    requires |rows| == |p.functions| && CallsInRange(p, calls) && n <= |calls| == |entries|
  {
    if n == 0 then []
    else PresentRows(p, rows, calls, entries, n - 1) + if entries[n - 1].Some? then RowOfCall(p, rows, calls[n - 1]) else []
  }

  /** An entry that is present belongs to a polymorphic call with a determined argument, and
      is what recomputing the call gives, at the given totals of the arenas. */
  ghost predicate EntryExact(p: Program, rows: seq<Row>, calls: seq<CallSite>, t: Table, i: nat, argumentTotal: nat, rowTotal: nat)
    requires |rows| == |p.functions| && CallsInRange(p, calls) && i < |calls| == |t.entries|
  {
    t.entries[i].Some? ==>
      && Polymorphic(p, calls[i]) && Determined(calls[i])
      && t.entries[i].value == Entry(i, calls[i].target, CallbackTail(calls[i].callbacks),
                                     argumentTotal, |ArgumentsOf(p, rows, calls[i])|, rowTotal, |RowOfCall(p, rows, calls[i])|)
  }

  ghost predicate EntriesExact(p: Program, rows: seq<Row>, calls: seq<CallSite>, t: Table, n: nat)
    requires |rows| == |p.functions| && CallsInRange(p, calls) && n <= |calls| == |t.entries|
  {
    forall i :: 0 <= i < n ==>
      EntryExact(p, rows, calls, t, i, |PresentArguments(p, rows, calls, t.entries, i)|, |PresentRows(p, rows, calls, t.entries, i)|)
  }

  /** What the replay accepts: every entry that is present is exact, and the slices of the
      present entries tile both arenas. A missing entry is skipped. */
  ghost predicate Replayable(p: Program, rows: seq<Row>, calls: seq<CallSite>, t: Table)
    requires |rows| == |p.functions| && CallsInRange(p, calls)
  {
    && |t.entries| == |calls| && EntriesExact(p, rows, calls, t, |calls|)
    && t.arguments == PresentArguments(p, rows, calls, t.entries, |calls|)
    && t.rows == PresentRows(p, rows, calls, t.entries, |calls|)
  }

  /** Entry i is exact, and its slices hold its atoms. */
  ghost predicate EntryMatches(p: Program, rows: seq<Row>, calls: seq<CallSite>, t: Table, i: nat, argumentTotal: nat, rowTotal: nat)
    requires |rows| == |p.functions| && CallsInRange(p, calls) && i < |calls| == |t.entries|
  {
    var x, y := ArgumentsOf(p, rows, calls[i]), RowOfCall(p, rows, calls[i]);
    && EntryExact(p, rows, calls, t, i, argumentTotal, rowTotal)
    && (t.entries[i].Some? ==>
          && argumentTotal + |x| <= |t.arguments| && t.arguments[argumentTotal..argumentTotal + |x|] == x
          && rowTotal + |y| <= |t.rows| && t.rows[rowTotal..rowTotal + |y|] == y)
  }

  /** The replay of one entry; a missing one passes. */
  method ValidateCall(p: Program, rows: seq<Row>, calls: seq<CallSite>, t: Table, i: nat, argumentTotal: nat, rowTotal: nat)
    returns (ok: bool, arguments: Row, row: Row)
    requires |rows| == |p.functions| && CallsInRange(p, calls) && i < |calls| == |t.entries|
    requires argumentTotal <= |t.arguments| && rowTotal <= |t.rows|
    ensures ok <==> EntryMatches(p, rows, calls, t, i, argumentTotal, rowTotal)
    ensures ok ==> arguments == (if t.entries[i].Some? then ArgumentsOf(p, rows, calls[i]) else [])
    ensures ok ==> row == (if t.entries[i].Some? then RowOfCall(p, rows, calls[i]) else [])
  {
    hide CallArguments, CallRow, NoRepeats, CallbackTail, AllArguments, AllRows;
    arguments, row := [], [];
    if t.entries[i].None? { return true, arguments, row; }
    if !Polymorphic(p, calls[i]) { return false, arguments, row; }
    var determined;
    arguments, row, determined := InferCallRow(p, rows, calls[i].target, calls[i].callbacks);
    InstantiationShape(p, rows, calls[i]);
    ok := determined
          && t.entries[i] == Some(Entry(i, calls[i].target, CallbackTail(calls[i].callbacks), argumentTotal, |arguments|, rowTotal, |row|))
          && argumentTotal + |arguments| <= |t.arguments| && rowTotal + |row| <= |t.rows|
          && t.arguments[argumentTotal..argumentTotal + |arguments|] == arguments
          && t.rows[rowTotal..rowTotal + |row|] == row
          && AtomsFree(arguments) && !Repeats(row);
  }

  /** The first i entries have been replayed, up to the given totals of the two arenas. */
  ghost predicate Replayed(p: Program, rows: seq<Row>, calls: seq<CallSite>, t: Table, i: nat, argumentTotal: nat, rowTotal: nat)
    requires |rows| == |p.functions| && CallsInRange(p, calls) && i <= |calls| == |t.entries|
    ensures Replayed(p, rows, calls, t, i, argumentTotal, rowTotal) ==> argumentTotal <= |t.arguments| && rowTotal <= |t.rows|
  {
    && argumentTotal <= |t.arguments| && t.arguments[..argumentTotal] == PresentArguments(p, rows, calls, t.entries, i)
    && rowTotal <= |t.rows| && t.rows[..rowTotal] == PresentRows(p, rows, calls, t.entries, i)
    && EntriesExact(p, rows, calls, t, i)
  }

  /** The independent validator: recomputes every recorded call from the final rows. */
  method ValidateCalls(p: Program, rows: seq<Row>, calls: seq<CallSite>, t: Table) returns (ok: bool)
    requires |rows| == |p.functions| && CallsInRange(p, calls)
    ensures ok <==> Replayable(p, rows, calls, t)
  {
    if |t.entries| != |calls| { return false; }
    var argumentTotal: nat, rowTotal: nat := 0, 0;
    var i := 0;
    assert Replayed(p, rows, calls, t, 0, 0, 0);
    hide PresentArguments, PresentRows, ArgumentsOf, RowOfCall, EntryMatches, Replayable, Replayed, SiteInRange;
    while i < |calls|
      invariant 0 <= i <= |calls|
      invariant Replayed(p, rows, calls, t, i, argumentTotal, rowTotal)
    {
      var matches, arguments, row := ValidateCall(p, rows, calls, t, i, argumentTotal, rowTotal);
      if !matches {
        if Replayable(p, rows, calls, t) { ReplayableMatches(p, rows, calls, t, i, argumentTotal, rowTotal); }
        return false;
      }
      MatchExtends(p, rows, calls, t, i, argumentTotal, rowTotal, arguments, row);
      argumentTotal, rowTotal := argumentTotal + |arguments|, rowTotal + |row|;
      i := i + 1;
    }
    ok := argumentTotal == |t.arguments| && rowTotal == |t.rows|;
    ReplayComplete(p, rows, calls, t, argumentTotal, rowTotal);
  }

  lemma {:induction false} ReplayComplete(p: Program, rows: seq<Row>, calls: seq<CallSite>, t: Table, argumentTotal: nat, rowTotal: nat)
    requires |rows| == |p.functions| && CallsInRange(p, calls) && |calls| == |t.entries|
    requires Replayed(p, rows, calls, t, |calls|, argumentTotal, rowTotal)
    ensures Replayable(p, rows, calls, t) <==> argumentTotal == |t.arguments| && rowTotal == |t.rows|
  {
    hide PresentArguments, PresentRows, EntriesExact;
    if argumentTotal == |t.arguments| { assert t.arguments[..argumentTotal] == t.arguments; }
    if rowTotal == |t.rows| { assert t.rows[..rowTotal] == t.rows; }
  }

  lemma {:induction false} MatchExtends(p: Program, rows: seq<Row>, calls: seq<CallSite>, t: Table, i: nat, argumentTotal: nat, rowTotal: nat, arguments: Row, row: Row)
    requires |rows| == |p.functions| && CallsInRange(p, calls) && i < |calls| == |t.entries|
    requires Replayed(p, rows, calls, t, i, argumentTotal, rowTotal)
    requires EntryMatches(p, rows, calls, t, i, argumentTotal, rowTotal)
    requires arguments == (if t.entries[i].Some? then ArgumentsOf(p, rows, calls[i]) else [])
    requires row == (if t.entries[i].Some? then RowOfCall(p, rows, calls[i]) else [])
    ensures Replayed(p, rows, calls, t, i + 1, argumentTotal + |arguments|, rowTotal + |row|)
  {
    hide ArgumentsOf, RowOfCall, CallbackTail, Determined, Polymorphic, SiteInRange;
    PresentNext(p, rows, calls, t.entries, i);
    hide PresentArguments, PresentRows, EntryExact;
    PrefixGrows(t.arguments, argumentTotal, arguments);
    PrefixGrows(t.rows, rowTotal, row);
  }

  lemma {:induction false} PresentNext(p: Program, rows: seq<Row>, calls: seq<CallSite>, entries: seq<Option<Entry>>, i: nat)
    requires |rows| == |p.functions| && CallsInRange(p, calls) && i < |calls| == |entries|
    ensures PresentArguments(p, rows, calls, entries, i + 1)
      == PresentArguments(p, rows, calls, entries, i) + if entries[i].Some? then ArgumentsOf(p, rows, calls[i]) else []
    ensures PresentRows(p, rows, calls, entries, i + 1)
      == PresentRows(p, rows, calls, entries, i) + if entries[i].Some? then RowOfCall(p, rows, calls[i]) else []
  {
  }

  lemma {:induction false} PrefixGrows(whole: Row, total: nat, piece: Row)
    requires total + |piece| <= |whole| && whole[total..total + |piece|] == piece
    ensures whole[..total + |piece|] == whole[..total] + piece
  {
  }

  lemma {:induction false} SliceAfter(whole: Row, before: Row, piece: Row)
    requires before + piece <= whole
    ensures |before| + |piece| <= |whole| && whole[|before|..|before| + |piece|] == piece
  {
    assert whole[..|before| + |piece|] == before + piece;
  }

  lemma {:induction false} PresentPrefix(p: Program, rows: seq<Row>, calls: seq<CallSite>, entries: seq<Option<Entry>>, i: nat, n: nat)
    requires |rows| == |p.functions| && CallsInRange(p, calls) && i <= n <= |calls| == |entries|
    ensures PresentArguments(p, rows, calls, entries, i) <= PresentArguments(p, rows, calls, entries, n)
    ensures PresentRows(p, rows, calls, entries, i) <= PresentRows(p, rows, calls, entries, n)
    decreases n - i
  {
    hide ArgumentsOf, RowOfCall, SiteInRange;
    if i < n { PresentPrefix(p, rows, calls, entries, i, n - 1); }
  }

  /** In an accepted table the slices of entry i are where the validator looks for them. */
  lemma {:induction false} ReplayableMatches(p: Program, rows: seq<Row>, calls: seq<CallSite>, t: Table, i: nat, argumentTotal: nat, rowTotal: nat)
    requires |rows| == |p.functions| && CallsInRange(p, calls) && i < |calls| == |t.entries|
    requires Replayed(p, rows, calls, t, i, argumentTotal, rowTotal) && Replayable(p, rows, calls, t)
    ensures EntryMatches(p, rows, calls, t, i, argumentTotal, rowTotal)
  {
    hide ArgumentsOf, RowOfCall, SiteInRange, PresentArguments, PresentRows, EntryExact, Polymorphic;
    assert EntryExact(p, rows, calls, t, i, |PresentArguments(p, rows, calls, t.entries, i)|, |PresentRows(p, rows, calls, t.entries, i)|);
    if t.entries[i].Some? {
      PresentNext(p, rows, calls, t.entries, i);
      PresentPrefix(p, rows, calls, t.entries, i + 1, |calls|);
      SliceAfter(t.arguments, PresentArguments(p, rows, calls, t.entries, i), ArgumentsOf(p, rows, calls[i]));
      SliceAfter(t.rows, PresentRows(p, rows, calls, t.entries, i), RowOfCall(p, rows, calls[i]));
    }
  }

  /** The shape the validator asks of an instantiation: authority-free arguments, and a row
      without repetitions. */
  lemma {:induction false} InstantiationShape(p: Program, rows: seq<Row>, s: CallSite)
    requires |rows| == |p.functions| && SiteInRange(p, s) && Polymorphic(p, s)
    ensures AtomsFree(CallArguments(p, rows, s.callbacks))
    ensures NoRepeats(CallRow(p, rows, s.target, s.callbacks))
  {
    var added := AllCallbackAtoms(p, rows, s.callbacks);
    InsertAllIsUnion([], added);
    AllCallbackAtomsAreAdded(p, rows, s.callbacks);
    InsertAllIsUnion([], rows[s.target]);
    InsertAllIsUnion(InsertAll([], rows[s.target]), added);
    forall a | a in CallArguments(p, rows, s.callbacks) ensures AuthorityFree(a) {
      var i :| 0 <= i < |s.callbacks| && CallbackAdds(p, AtomsOf(rows), s.callbacks[i], a);
    }
  }

  // ------------------------------------------------- replayable and recorded tables

  /** Every polymorphic call has an entry, and a determined effect argument. */
  ghost predicate Complete(p: Program, calls: seq<CallSite>, t: Table)
    requires CallsInRange(p, calls) && |t.entries| == |calls|
  {
    forall i :: 0 <= i < |calls| && Polymorphic(p, calls[i]) ==> t.entries[i].Some? && Determined(calls[i])
  }

  /** The entries are those of the polymorphic calls and no others. */
  ghost predicate SamePresence(p: Program, calls: seq<CallSite>, t: Table)
    requires CallsInRange(p, calls) && |t.entries| == |calls|
  {
    forall i :: 0 <= i < |calls| ==> (t.entries[i].Some? <==> Polymorphic(p, calls[i]))
  }

  /** Where exactly the polymorphic calls have entries, the present calls are all calls. */
  lemma {:induction false} PresentIsAll(p: Program, rows: seq<Row>, calls: seq<CallSite>, t: Table, n: nat)
    requires |rows| == |p.functions| && CallsInRange(p, calls) && n <= |calls| == |t.entries| && SamePresence(p, calls, t)
    ensures PresentArguments(p, rows, calls, t.entries, n) == AllArguments(p, rows, calls[..n])
    ensures PresentRows(p, rows, calls, t.entries, n) == AllRows(p, rows, calls[..n])
    decreases n
  {
    hide CallArguments, CallRow, SiteInRange;
    if n > 0 {
      PresentIsAll(p, rows, calls, t, n - 1);
      RecordStep(p, rows, calls, n - 1);
      hide AllArguments, AllRows, ArgumentsOf, RowOfCall;
      assert t.entries[n - 1].Some? <==> Polymorphic(p, calls[n - 1]);
    }
  }

  /** A recorded table is accepted if and only if every polymorphic call is determined; and an
      accepted table is the recorded one if and only if no polymorphic call lacks its entry. */
  lemma {:induction false} ReplayExact(p: Program, rows: seq<Row>, calls: seq<CallSite>, t: Table)
    requires |rows| == |p.functions| && CallsInRange(p, calls) && |t.entries| == |calls|
    ensures Recorded(p, rows, calls, t) ==> (Replayable(p, rows, calls, t) <==> Complete(p, calls, t))
    ensures Replayable(p, rows, calls, t) ==> (Recorded(p, rows, calls, t) <==> Complete(p, calls, t))
  {
    if Recorded(p, rows, calls, t) { RecordedReplay(p, rows, calls, t); }
    if Replayable(p, rows, calls, t) { ReplayRecorded(p, rows, calls, t); }
  }

  lemma {:induction false} RecordedReplay(p: Program, rows: seq<Row>, calls: seq<CallSite>, t: Table)
    requires |rows| == |p.functions| && CallsInRange(p, calls) && Recorded(p, rows, calls, t)
    ensures |t.entries| == |calls| && (Replayable(p, rows, calls, t) <==> Complete(p, calls, t))
  {
    hide AllArguments, AllRows, ArgumentsOf, RowOfCall, PresentArguments, PresentRows, CallbackTail, SiteInRange;
    assert SamePresence(p, calls, t) by {
      forall i | 0 <= i < |calls| ensures t.entries[i].Some? <==> Polymorphic(p, calls[i]) { RecordedParts(p, rows, calls, t, i); }
    }
    assert calls[..|calls|] == calls;
    PresentIsAll(p, rows, calls, t, |calls|);
    forall i | 0 <= i < |calls|
      ensures EntryExact(p, rows, calls, t, i, |PresentArguments(p, rows, calls, t.entries, i)|, |PresentRows(p, rows, calls, t.entries, i)|)
              <==> (Polymorphic(p, calls[i]) ==> Determined(calls[i]))
    {
      PresentIsAll(p, rows, calls, t, i);
      RecordedParts(p, rows, calls, t, i);
    }
  }

  lemma {:induction false} ReplayRecorded(p: Program, rows: seq<Row>, calls: seq<CallSite>, t: Table)
    requires |rows| == |p.functions| && CallsInRange(p, calls) && Replayable(p, rows, calls, t)
    ensures Recorded(p, rows, calls, t) <==> Complete(p, calls, t)
  {
    hide AllArguments, AllRows, ArgumentsOf, RowOfCall, PresentArguments, PresentRows, CallbackTail, SiteInRange;
    forall i | 0 <= i < |calls|
      ensures EntryExact(p, rows, calls, t, i, |PresentArguments(p, rows, calls, t.entries, i)|, |PresentRows(p, rows, calls, t.entries, i)|)
      ensures t.entries[i].Some? ==> Polymorphic(p, calls[i]) && Determined(calls[i])
    {
      assert EntryExact(p, rows, calls, t, i, |PresentArguments(p, rows, calls, t.entries, i)|, |PresentRows(p, rows, calls, t.entries, i)|);
    }
    if Complete(p, calls, t) {
      assert SamePresence(p, calls, t);
      assert calls[..|calls|] == calls;
      PresentIsAll(p, rows, calls, t, |calls|);
      forall i | 0 <= i < |calls| ensures t.entries[i] == EntryOf(p, rows, calls, i) { PresentIsAll(p, rows, calls, t, i); }
    }
    if Recorded(p, rows, calls, t) {
      forall i | 0 <= i < |calls| && Polymorphic(p, calls[i]) ensures t.entries[i].Some? && Determined(calls[i]) {
        RecordedParts(p, rows, calls, t, i);
      }
    }
  }

  /** What recording leaves behind when it reports nothing passes the replay. */
  lemma {:induction false} RecordedInOrder(p: Program, rows: seq<Row>, calls: seq<CallSite>, t: Table)
    requires |rows| == |p.functions| && CallsInRange(p, calls) && Recorded(p, rows, calls, t)
    requires forall i :: 0 <= i < |calls| ==> CallInOrder(p, rows, calls[i])
    ensures Replayable(p, rows, calls, t)
  {
    RecordedReplay(p, rows, calls, t);
    hide Recorded, Replayable, SiteInRange;
    forall i | 0 <= i < |calls| && Polymorphic(p, calls[i]) ensures t.entries[i].Some? && Determined(calls[i]) {
      RecordedParts(p, rows, calls, t, i);
      assert CallInOrder(p, rows, calls[i]);
    }
  }

  /** The replay alone does not notice missing entries: the empty table of any program is
      accepted, although it is not the recorded one if there is a polymorphic call. */
  lemma {:induction false} EmptyTableAccepted(p: Program, rows: seq<Row>, calls: seq<CallSite>, t: Table)
    requires |rows| == |p.functions| && CallsInRange(p, calls)
    requires t == Table(seq(|calls|, _ => None), [], [])
    ensures Replayable(p, rows, calls, t)
    ensures Recorded(p, rows, calls, t) <==> forall i :: 0 <= i < |calls| ==> !Polymorphic(p, calls[i])
  {
    NothingPresent(p, rows, calls, t.entries, |calls|);
    hide PresentArguments, PresentRows, SiteInRange;
    ReplayRecorded(p, rows, calls, t);
    if forall i :: 0 <= i < |calls| ==> !Polymorphic(p, calls[i]) {
      assert Complete(p, calls, t);
    }
  }

  lemma {:induction false} NothingPresent(p: Program, rows: seq<Row>, calls: seq<CallSite>, entries: seq<Option<Entry>>, n: nat)
    requires |rows| == |p.functions| && CallsInRange(p, calls) && n <= |calls| == |entries| && forall i :: 0 <= i < n ==> entries[i].None?
    ensures PresentArguments(p, rows, calls, entries, n) == [] == PresentRows(p, rows, calls, entries, n)
    decreases n
  {
    if n > 0 { NothingPresent(p, rows, calls, entries, n - 1); }
  }

  lemma {:induction false} RecordedParts(p: Program, rows: seq<Row>, calls: seq<CallSite>, t: Table, i: nat)
    requires |rows| == |p.functions| && CallsInRange(p, calls) && i < |calls| && Recorded(p, rows, calls, t)
    ensures t.arguments == AllArguments(p, rows, calls) && t.rows == AllRows(p, rows, calls)
    ensures |t.entries| == |calls| && t.entries[i] == EntryOf(p, rows, calls, i)
    ensures SiteInRange(p, calls[i])
  {
  }
}
