/** The string index: interned strings, their 16-bit numbers, and the file that lists them. */
module StrIndex {
  import opened Prelude
  import opened Sequences
  import opened TextLines

  const CAPACITY: nat := 0x10000 // numbers are uint16

  // index lists the strings, number 0 being the empty one; mapping is the reverse.
  datatype Table = Table(index: seq<string>, mapping: map<string, nat>)

  const EMPTY := Table([""], map["" := 0])

  // The number stored is the position cast to 16 bits.
  function Add(t: Table, s: string): Table {
    Table(t.index + [s], t.mapping[s := |t.index| % CAPACITY])
  }

  function Intern(t: Table, s: string): (Table, nat) {
    if s in t.mapping then (t, t.mapping[s]) else (Add(t, s), |t.index| % CAPACITY)
  }

  function AddAll(t: Table, lines: seq<string>): Table
    decreases |lines|
  {
    if lines == [] then t else AddAll(Add(t, lines[0]), lines[1..])
  }

  function Load(text: string): Table { AddAll(EMPTY, ScanLines(text)) }

  // Every number leads back to its string.
  ghost predicate Good(t: Table) {
    0 < |t.index| <= CAPACITY && t.index[0] == ""
    && (forall s :: s in t.mapping ==> t.mapping[s] < |t.index| && t.index[t.mapping[s]] == s)
    && (forall i :: 0 <= i < |t.index| ==> t.index[i] in t.mapping)
  }

  class StrIndex {
    var index: seq<string>
    var mapping: map<string, nat>
    var file: string // what the strings file holds
    const hasFile: bool
    const readonly: bool

    ghost function View(): Table
      reads this
    {
      Table(index, mapping)
    }

    // With a file name, an existing file is loaded; content is None when there is no such file.
    constructor (hasFile: bool, content: Option<string>, readonly: bool)
      ensures this.hasFile == hasFile && this.readonly == readonly
      ensures file == (if content.Some? then content.value else "")
      ensures View() == if hasFile && content.Some? then Load(content.value) else EMPTY
    {
      this.hasFile, this.readonly := hasFile, readonly;
      index := [""];
      mapping := map["" := 0];
      file := if content.Some? then content.value else "";
      new;
      if hasFile && content.Some? {
        LoadFile(content.value);
      }
    }

    method LoadFile(text: string)
      modifies this`index, this`mapping
      ensures View() == AddAll(old(View()), ScanLines(text))
    {
      var lines := ScanLines(text);
      for i := 0 to |lines|
        invariant AddAll(View(), lines[i..]) == AddAll(old(View()), lines)
      {
        assert lines[i..][0] == lines[i] && lines[i..][1..] == lines[i + 1..];
        index := index + [lines[i]];
        mapping := mapping[lines[i] := (|index| - 1) % CAPACITY];
      }
    }

    // None stands for the panic on a number past the end.
    method Get(idx: nat) returns (s: Option<string>)
      ensures s == if idx < |index| then Some(index[idx]) else None
    {
      if idx >= |index| { return None; }
      return Some(index[idx]);
    }

    // None stands for the panic on a change to a read-only index.
    method Idx(str: string) returns (r: Option<nat>)
      modifies this`index, this`mapping, this`file
      ensures r.None? <==> readonly && str !in old(mapping)
      ensures r.None? ==> unchanged(this)
      ensures r.Some? ==> (View(), r.value) == Intern(old(View()), str)
      ensures r.Some? ==> file == old(file) + if hasFile && str !in old(mapping) then str + "\n" else ""
    {
      if str in mapping { return Some(mapping[str]); }
      if readonly { return None; }
      index := index + [str];
      var idx := (|index| - 1) % CAPACITY;
      mapping := mapping[str := idx];
      AppendFile(str);
      return Some(idx);
    }

    // The line is written and flushed at once.
    method AppendFile(str: string)
      modifies this`file
      ensures file == old(file) + if hasFile then str + "\n" else ""
    {
      if hasFile { file := file + (str + "\n"); }
    }
  }

  // ---------------------------------------------------------------- properties of the table

  // Interning keeps the table good and every earlier number as it was, and its answer reads back.
  lemma InternKeeps(t: Table, s: string)
    requires Good(t) && (s in t.mapping || |t.index| < CAPACITY)
    ensures var (t', i) := Intern(t, s);
            Good(t') && i < |t'.index| && t'.index[i] == s && t'.mapping[s] == i
            && t.index <= t'.index
            && forall x :: x in t.mapping ==> x in t'.mapping && t'.mapping[x] == t.mapping[x]
  {}

  // The answer of an interning reads back as the string if and only if the string was known or the
  // 16-bit numbers are not used up.
  lemma ReadsBackIff(t: Table, s: string)
    requires Good(t)
    ensures var (t', i) := Intern(t, s);
            i < |t'.index| && t'.index[i] == s <==> s in t.mapping || |t.index| < CAPACITY
  {}

  lemma AddKeeps(t: Table, s: string)
    requires Good(t) && |t.index| < CAPACITY
    ensures Good(Add(t, s))
  {}

  // A file of fewer than 65536 lines loads as a good table that lists its lines.
  lemma {:induction false} LoadIsGood(t: Table, lines: seq<string>)
    requires Good(t) && |t.index| + |lines| <= CAPACITY
    ensures Good(AddAll(t, lines)) && AddAll(t, lines).index == t.index + lines
    decreases |lines|
  {
    if lines != [] {
      AddKeeps(t, lines[0]);
      LoadIsGood(Add(t, lines[0]), lines[1..]);
      assert t.index + [lines[0]] + lines[1..] == t.index + lines;
    }
  }

  lemma {:induction false} AddAllSnoc(t: Table, lines: seq<string>, s: string)
    ensures AddAll(t, lines + [s]) == Add(AddAll(t, lines), s)
    decreases |lines|
  {
    if lines == [] {
      assert AddAll(Add(t, s), []) == Add(t, s);
    } else {
      assert (lines + [s])[1..] == lines[1..] + [s];
      AddAllSnoc(Add(t, lines[0]), lines[1..], s);
    }
  }

  // What the scanner keeps of a line.
  predicate Scannable(s: string) {
    '\n' !in s && (s == "" || s[|s| - 1] != '\r')
  }

  // A table and its file agree: loading the file would rebuild the table.
  ghost predicate InFile(t: Table, text: string) {
    Terminated(text) && t == Load(text)
  }

  lemma InFileAfterIntern(t: Table, text: string, s: string)
    requires InFile(t, text) && Scannable(s) && s !in t.mapping
    ensures InFile(Intern(t, s).0, text + (s + "\n"))
  {
    AppendLine(text, s);
    assert DropCR(s) == s;
    MapAppend(DropCR, Lines(text), [s]);
    assert Map(DropCR, [s]) == [s];
    assert ScanLines(text + (s + "\n")) == ScanLines(text) + [s];
    AddAllSnoc(EMPTY, ScanLines(text), s);
  }

  // The file of an index may be loaded again at any time, with the same numbers, as long as the
  // strings interned survive a scan.
  lemma {:induction false} ReloadRebuilds(t: Table, text: string, labels: seq<string>)
    requires InFile(t, text) && forall s :: s in labels ==> Scannable(s)
    ensures InFile(InternAll(t, labels), text + JoinLines(NewStrings(t, labels)))
    decreases |labels|
  {
    if labels == [] {
      assert text + "" == text;
    } else {
      var s, t' := labels[0], Intern(t, labels[0]).0;
      if s in t.mapping {
        ReloadRebuilds(t, text, labels[1..]);
      } else {
        var more := NewStrings(t', labels[1..]);
        InFileAfterIntern(t, text, s);
        ReloadRebuilds(t', text + (s + "\n"), labels[1..]);
        HeadOfLines(s, more);
        Reassociate(text, s + "\n", JoinLines(more));
      }
    }
  }

  lemma HeadOfLines(s: string, more: seq<string>)
    ensures JoinLines([s] + more) == s + "\n" + JoinLines(more)
  {
    assert ([s] + more)[1..] == more;
  }

  function InternAll(t: Table, labels: seq<string>): Table
    decreases |labels|
  {
    if labels == [] then t else InternAll(Intern(t, labels[0]).0, labels[1..])
  }

  function NewStrings(t: Table, labels: seq<string>): seq<string>
    decreases |labels|
  {
    if labels == [] then []
    else if labels[0] in t.mapping then NewStrings(t, labels[1..])
    else [labels[0]] + NewStrings(Intern(t, labels[0]).0, labels[1..])
  }

  lemma AppendedLine(text: string, s: string)
    requires '\n' !in s
    ensures Lines(text + (s + "\n")) == Lines(text) + [Tail(text) + s] && Terminated(text + (s + "\n"))
  {
    LinesSplit(text, s + "\n");
    Reassociate(Tail(text), s, "\n");
    OneLine(Tail(text) + s);
  }

  // A string appended to a file is read back as a line of its own if and only if the file ends its
  // last line, as a copied one may not: otherwise the reader sees the two as one.
  lemma AppendedIsLineIff(text: string, s: string)
    requires '\n' !in s
    ensures Lines(text + (s + "\n")) == Lines(text) + [s] <==> Terminated(text)
  {
    AppendedLine(text, s);
    SameLastIff(Lines(text), Tail(text) + s, s);
    assert Terminated(text) <==> |Tail(text) + s| == |s|;
    if Terminated(text) { assert Tail(text) + s == s; }
  }

  // ---------------------------------------------------------------- what a loaded index lists

  lemma {:induction false} LoadedList(t: Table, lines: seq<string>)
    ensures AddAll(t, lines).index == t.index + lines
    decreases |lines|
  {
    if lines == [] {
      assert t.index + lines == t.index;
    } else {
      LoadedList(Add(t, lines[0]), lines[1..]);
      HeadMoves(t.index, lines);
    }
  }

  // A line as the scanner keeps it: without one carriage return at its end.
  predicate KeptAs(line: string, s: string) {
    if line != "" && line[|line| - 1] == '\r' then s == line[..|line| - 1] else s == line
  }

  lemma ScanOf(front: seq<string>, last: string)
    requires (forall s :: s in front ==> '\n' !in s) && '\n' !in last
    ensures ScanLines(JoinLines(front) + last) == Map(DropCR, if last == "" then front else front + [last])
  {
    LinesOfJoin(front);
    LinesAppend(JoinLines(front), last);
    assert Lines(last) == [] && Tail(last) == last;
    assert front + [] == front;
    MapAppend(DropCR, front, [last]);
    assert Map(DropCR, [last]) == [DropCR(last)];
  }

  // Loading lists the lines of a file in order, the last one too if the file does not end it.
  lemma LoadListsLines(front: seq<string>, last: string)
    requires (forall s :: s in front ==> '\n' !in s) && '\n' !in last
    ensures var index, lines := Load(JoinLines(front) + last).index, if last == "" then front else front + [last];
            |index| == 1 + |lines| && index[0] == ""
            && forall i :: 0 <= i < |lines| ==> KeptAs(lines[i], index[i + 1])
  {
    var lines := if last == "" then front else front + [last];
    ScanOf(front, last);
    LoadedList(EMPTY, Map(DropCR, lines));
  }

  lemma AfterFirst(index: seq<string>, lines: seq<string>)
    requires |index| == 1 + |lines| && index[0] == ""
    requires forall i :: 0 <= i < |lines| ==> index[i + 1] == lines[i]
    ensures index == [""] + lines
  {}

  lemma KeptLines(index: seq<string>, lines: seq<string>)
    requires |index| == 1 + |lines| && index[0] == ""
    requires forall i :: 0 <= i < |lines| ==> Scannable(lines[i]) && KeptAs(lines[i], index[i + 1])
    ensures index == [""] + lines
  {
    AfterFirst(index, lines);
  }

  // Of strings that survive a scan, exactly those.
  lemma LoadListsStrings(front: seq<string>, last: string)
    requires (forall s :: s in front ==> Scannable(s)) && Scannable(last) && last != ""
    ensures Load(JoinLines(front) + last).index == [""] + (front + [last])
  {
    LoadListsLines(front, last);
    KeptLines(Load(JoinLines(front) + last).index, front + [last]);
  }
}
