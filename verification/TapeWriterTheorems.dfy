/** What the tape writer promises: nothing written is lost, every file is well formed, little is unflushed. */
module TapeWriterTheorems {
  import opened TapeWriter

  // ----- Reading a snapshot -----

  ghost function ContentOf(m: Files, k: Key): seq<Line> { if k in m then m[k] else [] }

  ghost function BufferOf(v: Snapshot, k: Key): seq<Line> {
    if k.date == v.date && k.symbol in v.buffers then v.buffers[k.symbol] else []
  }

  /** Everything recorded for a symbol and day: compressed, plain and still buffered. */
  ghost function LogOf(v: Snapshot, k: Key): seq<Line> {
    ContentOf(v.gz, k) + ContentOf(v.csv, k) + BufferOf(v, k)
  }

  function Rows(lines: seq<Line>): seq<Row> {
    if lines == [] then []
    else if lines[|lines|-1].Data? then Rows(lines[..|lines|-1]) + [lines[|lines|-1].row]
    else Rows(lines[..|lines|-1])
  }

  function OfSymbol(rows: seq<Row>, symbol: string): seq<Row> {
    if rows == [] then []
    else if rows[|rows|-1].symbol == symbol then OfSymbol(rows[..|rows|-1], symbol) + [rows[|rows|-1]]
    else OfSymbol(rows[..|rows|-1], symbol)
  }

  /** One header, then data rows only. */
  ghost predicate WellFormed(lines: seq<Line>) {
    && lines != [] && lines[0].Header?
    && forall i | 1 <= i < |lines| :: lines[i].Data?
  }

  /** The files of one symbol and day that exist, counting what is still buffered, are well formed. */
  ghost predicate FileWellFormed(v: Snapshot, k: Key) {
    && (k in v.csv ==> WellFormed(v.csv[k] + BufferOf(v, k)))
    && (k in v.gz ==> WellFormed(v.gz[k]))
  }

  /** Each open file is on the disk. */
  ghost predicate OpenOnDisk(v: Snapshot) { forall s | s in v.buffers :: Key(s, v.date) in v.csv }

  /** The buffers hold exactly the unflushed rows, at most `buf` of them. */
  ghost predicate BuffersExact(v: Snapshot) {
    && (forall s | s in v.buffers :: Rows(v.buffers[s]) == OfSymbol(v.unflushed, s))
    && (forall r | r in v.unflushed :: r.symbol in v.buffers)
    && |v.unflushed| <= v.buf
  }

  // ----- Flushing, closing, rotating -----

  lemma FlushKeepsLog(v: Snapshot, k: Key)
    requires OpenOnDisk(v)
    ensures LogOf(AfterFlush(v), k) == LogOf(v, k) == LogOf(AfterClose(v), k)
  {
    var flushed := ContentOf(Flushed(v.csv, v.date, v.buffers, {}), k);
    assert flushed == ContentOf(v.csv, k) + BufferOf(v, k);
    assert ContentOf(v.gz, k) + flushed + [] == LogOf(v, k);
  }

  lemma FlushKeepsOpen(v: Snapshot)
    requires OpenOnDisk(v)
    ensures OpenOnDisk(AfterFlush(v)) && OpenOnDisk(AfterClose(v))
  {
  }

  lemma FlushKeepsForm(v: Snapshot, k: Key)
    requires OpenOnDisk(v)
    ensures FileWellFormed(AfterFlush(v), k) == FileWellFormed(v, k) == FileWellFormed(AfterClose(v), k)
  {
    hide WellFormed;
    if k in v.csv {
      var whole := v.csv[k] + BufferOf(v, k);
      assert Flushed(v.csv, v.date, v.buffers, {})[k] + [] == whole;
      assert BufferOf(AfterFlush(v), k) == [] && BufferOf(AfterClose(v), k) == [];
    }
  }

  /** A change of date leaves every log that is not past retention as it was. */
  lemma RotateKeepsLog(v: Snapshot, today: string, expired: set<Key>, k: Key)
    requires OpenOnDisk(v) && (k !in expired || today == v.date)
    ensures LogOf(AfterRotate(v, today, expired), k) == LogOf(v, k)
  {
    if today != v.date {
      FlushKeepsLog(v, k);
      var c, r := AfterClose(v), AfterRotate(v, today, expired);
      assert BufferOf(r, k) == [] && BufferOf(c, k) == [];
      if Moves(c.csv, c.gz, v.date, {}, k) {
        assert ContentOf(r.gz, k) == c.csv[k] && ContentOf(r.csv, k) == [];
      } else {
        assert ContentOf(r.gz, k) == ContentOf(c.gz, k) && ContentOf(r.csv, k) == ContentOf(c.csv, k);
      }
    }
  }

  /** After a change of date nothing is open, and a plain file of the old day stays only beside a compressed one. */
  lemma RotateClosesDay(v: Snapshot, today: string, expired: set<Key>)
    requires OpenOnDisk(v)
    ensures var r := AfterRotate(v, today, expired);
            && OpenOnDisk(r) && r.date == today
            && (forall k: Key | k.date == today :: k in r.csv <==> k in v.csv)
            && (today != v.date ==>
                  && r.buffers == map[] && r.unflushed == [] && r.buf == 0
                  && forall k | k in r.csv && k.date == v.date :: k in v.gz)
  {
  }

  /**
   A change of date, file by file: every buffer is in its plain file; a plain file of the day that ended has become a
   compressed one unless there was one; the compressed files past retention are gone.
   */
  lemma RotationFileByFile(v: Snapshot, today: string, expired: set<Key>, k: Key)
    requires OpenOnDisk(v) && today != v.date
    ensures var r := AfterRotate(v, today, expired);
            && (k in r.csv <==> k in v.csv && (k.date != v.date || k in v.gz))
            && (k in r.gz <==> k !in expired && (k in v.gz || (k in v.csv && k.date == v.date)))
            && (k in r.csv ==> r.csv[k] == v.csv[k] + BufferOf(v, k))
            && (k in r.gz ==> r.gz[k] == if k in v.gz then v.gz[k] else v.csv[k] + BufferOf(v, k))
  {
    assert k in v.csv ==> Flushed(v.csv, v.date, v.buffers, {})[k] == v.csv[k] + BufferOf(v, k);
  }

  lemma RotateKeepsForm(v: Snapshot, today: string, expired: set<Key>, k: Key)
    requires OpenOnDisk(v) && (k !in expired || today == v.date)
    ensures FileWellFormed(AfterRotate(v, today, expired), k) == FileWellFormed(v, k)
  {
    hide WellFormed;
    if today != v.date {
      FlushKeepsForm(v, k);
      var c, r := AfterClose(v), AfterRotate(v, today, expired);
      assert BufferOf(c, k) == [] && BufferOf(r, k) == [];
      assert k in c.csv ==> c.csv[k] + [] == c.csv[k];
      assert Moves(c.csv, c.gz, v.date, {}, k) ==> k !in r.csv && k in r.gz && r.gz[k] == c.csv[k];
      assert !Moves(c.csv, c.gz, v.date, {}, k) ==>
               (k in r.csv <==> k in c.csv) && (k in r.gz <==> k in c.gz);
    }
  }

  // ----- One row -----

  /** Opening and appending, taken together. */
  ghost function Appended(v: Snapshot, row: Row): Snapshot { AfterAppend(AfterOpen(v, row.symbol), row) }

  /** The lines a row adds to its file: a header first if the file did not exist. */
  ghost function Added(v: Snapshot, row: Row): seq<Line> {
    if Key(row.symbol, v.date) in v.csv then [Data(row)] else [Header, Data(row)]
  }

  lemma AppendLog(v: Snapshot, row: Row, k: Key)
    requires OpenOnDisk(v)
    ensures OpenOnDisk(Appended(v, row)) && Appended(v, row).date == v.date
    ensures LogOf(Appended(v, row), k) ==
              if k == Key(row.symbol, v.date) then LogOf(v, k) + Added(v, row) else LogOf(v, k)
  {
    var a, own := Appended(v, row), Key(row.symbol, v.date);
    assert ContentOf(a.csv, k) == ContentOf(v.csv, k);
    if k == own {
      assert BufferOf(a, k) == BufferOf(v, k) + Added(v, row);
    } else {
      assert BufferOf(a, k) == BufferOf(v, k);
    }
  }

  /** A data row neither spoils a file nor mends one. */
  lemma FormAppend(lines: seq<Line>, row: Row)
    ensures WellFormed(lines + [Data(row)]) <==> WellFormed(lines)
  {
    var longer := lines + [Data(row)];
    if WellFormed(longer) {
      forall i | 1 <= i < |lines| ensures lines[i].Data? {
        assert longer[i].Data?;
      }
    }
  }

  lemma FormStart(row: Row)
    ensures WellFormed([Header, Data(row)])
  {
  }

  lemma AppendKeepsForm(v: Snapshot, row: Row, k: Key)
    requires OpenOnDisk(v)
    ensures FileWellFormed(Appended(v, row), k) == FileWellFormed(v, k)
  {
    hide WellFormed;
    var a, own := Appended(v, row), Key(row.symbol, v.date);
    if k == own {
      if own in v.csv {
        assert a.csv[own] + BufferOf(a, own) == (v.csv[own] + BufferOf(v, own)) + [Data(row)];
        FormAppend(v.csv[own] + BufferOf(v, own), row);
      } else {
        assert a.csv[own] + BufferOf(a, own) == [Header, Data(row)];
        FormStart(row);
      }
    } else if k in v.csv {
      assert a.csv[k] + BufferOf(a, k) == v.csv[k] + BufferOf(v, k);
    }
  }

  lemma RowsAppend(lines: seq<Line>, l: Line)
    ensures Rows(lines + [l]) == Rows(lines) + (if l.Data? then [l.row] else [])
  {
    assert (lines + [l])[..|lines|] == lines;
  }

  lemma OfSymbolAppend(rows: seq<Row>, r: Row, symbol: string)
    ensures OfSymbol(rows + [r], symbol) == OfSymbol(rows, symbol) + (if r.symbol == symbol then [r] else [])
  {
    assert (rows + [r])[..|rows|] == rows;
  }

  lemma {:induction false} OfSymbolNone(rows: seq<Row>, symbol: string)
    requires forall r | r in rows :: r.symbol != symbol
    ensures OfSymbol(rows, symbol) == []
  {
    if rows == [] {
    } else {
      OfSymbolNone(rows[..|rows|-1], symbol);
    }
  }

  /** With the row counted, the buffers still hold exactly the unflushed rows. */
  lemma AppendKeepsBuffers(v: Snapshot, row: Row)
    requires BuffersExact(v)
    ensures var a := Appended(v, row); BuffersExact(a.(buf := a.buf + 1))
  {
    var o, a := AfterOpen(v, row.symbol), Appended(v, row);
    if row.symbol !in v.buffers {
      OfSymbolNone(v.unflushed, row.symbol);
      RowsAppend([], Header);
      assert [] + [Header] == [Header];
    }
    RowsAppend(o.buffers[row.symbol], Data(row));
    forall s | s in a.buffers ensures Rows(a.buffers[s]) == OfSymbol(a.unflushed, s) {
      OfSymbolAppend(v.unflushed, row, s);
    }
  }

  lemma FlushedBuffers(v: Snapshot)
    ensures BuffersExact(AfterFlush(v))
  {
  }

  lemma RotateKeepsBuffers(v: Snapshot, today: string, expired: set<Key>)
    requires BuffersExact(v)
    ensures BuffersExact(AfterRotate(v, today, expired))
  {
  }

  // ----- Whole runs -----

  /** What the recorder does: a trade, or a gap marker after a lost connection. */
  datatype Event = Trade(today: string, expired: set<Key>, row: Row) | Gap(today: string, expired: set<Key>, row: Row)

  ghost function Apply(v: Snapshot, e: Event, flushEvery: int): Snapshot {
    match e
    case Trade(today, expired, row) => AfterWrite(v, today, expired, row, flushEvery)
    case Gap(today, expired, row) => AfterGap(v, today, expired, row)
  }

  lemma CountingIsSilent(a: Snapshot, n: nat, k: Key)
    ensures var c := a.(buf := n);
            && OpenOnDisk(c) == OpenOnDisk(a) && FileWellFormed(c, k) == FileWellFormed(a, k)
            && LogOf(c, k) == LogOf(a, k)
  {
    forall x ensures BufferOf(a.(buf := n), x) == BufferOf(a, x) {
    }
  }

  /** The snapshot an event leaves behind, before it may be flushed. */
  ghost function Unflushed(v: Snapshot, e: Event): Snapshot {
    var a := Appended(AfterRotate(v, e.today, e.expired), e.row);
    if e.Trade? then a.(buf := a.buf + 1) else a
  }

  lemma ApplyIsFlush(v: Snapshot, e: Event, flushEvery: int)
    ensures var u := Unflushed(v, e);
            Apply(v, e, flushEvery) == if e.Trade? && u.buf < flushEvery then u else AfterFlush(u)
  {
    hide AfterRotate, AfterFlush, AfterOpen, AfterAppend;
  }

  lemma FlushKeepsDate(v: Snapshot)
    ensures AfterFlush(v).date == v.date && AfterFlush(v).buf == 0 && AfterFlush(v).unflushed == []
  {
  }

  /**
   One event adds exactly its row, behind a header if it starts a new file, to the log of its symbol and day;
   every other log not past retention is unchanged.
   */
  lemma EventRecorded(v: Snapshot, e: Event, flushEvery: int, k: Key)
    requires OpenOnDisk(v) && (k !in e.expired || e.today == v.date)
    ensures OpenOnDisk(Apply(v, e, flushEvery)) && Apply(v, e, flushEvery).date == e.today
    ensures var own := Key(e.row.symbol, e.today);
            LogOf(Apply(v, e, flushEvery), k) ==
              if k != own then LogOf(v, k)
              else LogOf(v, k) + (if own in v.csv then [Data(e.row)] else [Header, Data(e.row)])
  {
    hide Apply, AfterRotate, AfterFlush, Appended, LogOf, OpenOnDisk, FileWellFormed;
    var r, u := AfterRotate(v, e.today, e.expired), Unflushed(v, e);
    RotateKeepsLog(v, e.today, e.expired, k);
    RotateClosesDay(v, e.today, e.expired);
    AppendLog(r, e.row, k);
    CountingIsSilent(Appended(r, e.row), u.buf, k);
    FlushKeepsLog(u, k);
    FlushKeepsOpen(u);
    FlushKeepsDate(u);
    ApplyIsFlush(v, e, flushEvery);
  }

  /** No event changes whether the files of a key not past retention are well formed; new ones are. */
  lemma EventKeepsForm(v: Snapshot, e: Event, flushEvery: int, k: Key)
    requires OpenOnDisk(v) && (k !in e.expired || e.today == v.date)
    ensures FileWellFormed(Apply(v, e, flushEvery), k) == FileWellFormed(v, k)
  {
    hide Apply, AfterRotate, AfterFlush, Appended, LogOf, OpenOnDisk, FileWellFormed;
    var r, u := AfterRotate(v, e.today, e.expired), Unflushed(v, e);
    RotateClosesDay(v, e.today, e.expired);
    RotateKeepsForm(v, e.today, e.expired, k);
    AppendLog(r, e.row, k);
    AppendKeepsForm(r, e.row, k);
    CountingIsSilent(Appended(r, e.row), u.buf, k);
    FlushKeepsForm(u, k);
    ApplyIsFlush(v, e, flushEvery);
  }

  /** After each event fewer rows than the threshold, and never more than counted, have not reached the disk. */
  lemma EventBoundsUnflushed(v: Snapshot, e: Event, flushEvery: int)
    requires OpenOnDisk(v) && BuffersExact(v)
    ensures var v' := Apply(v, e, flushEvery);
            BuffersExact(v') && |v'.unflushed| <= v'.buf < (if flushEvery >= 1 then flushEvery else 1)
  {
    hide Apply, AfterRotate, AfterFlush, AfterOpen, AfterAppend, Rows, OfSymbol;
    var r, u := AfterRotate(v, e.today, e.expired), Unflushed(v, e);
    RotateKeepsBuffers(v, e.today, e.expired);
    AppendKeepsBuffers(r, e.row);
    FlushKeepsDate(u);
    FlushedBuffers(u);
    ApplyIsFlush(v, e, flushEvery);
  }

  /**
   When an event flushes: a gap marker always, a trade exactly if it is the one that fills the count, which starts
   over with a new date; otherwise its row joins the unflushed ones.
   */
  lemma EventFlushes(v: Snapshot, e: Event, flushEvery: int)
    ensures var v' := Apply(v, e, flushEvery);
            var counted := if e.today == v.date then v.buf else 0;
            var waiting := if e.today == v.date then v.unflushed else [];
            if e.Gap? || counted + 1 >= flushEvery then v'.unflushed == [] && v'.buf == 0
            else v'.unflushed == waiting + [e.row] && v'.buf == counted + 1
  {
    hide Flushed, RotatedCsv, RotatedGz;
  }

  ghost function RunAll(v: Snapshot, es: seq<Event>, flushEvery: int): Snapshot {
    if es == [] then v else Apply(RunAll(v, es[..|es|-1], flushEvery), es[|es|-1], flushEvery)
  }

  /** The rows the events put under a key, in order. */
  ghost function RowsFor(es: seq<Event>, k: Key): seq<Row> {
    if es == [] then []
    else
      var rest, e := RowsFor(es[..|es|-1], k), es[|es|-1];
      if Key(e.row.symbol, e.today) == k then rest + [e.row] else rest
  }

  /** One event adds its row to the rows of its own key and to no other. */
  lemma EventAddsRow(v: Snapshot, e: Event, flushEvery: int, k: Key)
    requires OpenOnDisk(v) && k !in e.expired
    ensures OpenOnDisk(Apply(v, e, flushEvery))
    ensures Rows(LogOf(Apply(v, e, flushEvery), k)) ==
              Rows(LogOf(v, k)) + (if Key(e.row.symbol, e.today) == k then [e.row] else [])
  {
    hide Apply, LogOf, OpenOnDisk, Rows;
    EventRecorded(v, e, flushEvery, k);
    var log := LogOf(v, k);
    RowsAppend(log, Data(e.row));
    RowsAppend(log, Header);
    RowsAppend(log + [Header], Data(e.row));
    assert log + [Header, Data(e.row)] == (log + [Header]) + [Data(e.row)];
  }

  /**
   Over any run, whatever the dates do, the recorded rows of a symbol and day never past retention are those
   there before followed by exactly the rows written for it.
   */
  lemma {:induction false} NothingIsLost(v: Snapshot, es: seq<Event>, flushEvery: int, k: Key)
    requires OpenOnDisk(v)
    requires forall e | e in es :: k !in e.expired
    ensures OpenOnDisk(RunAll(v, es, flushEvery))
    ensures Rows(LogOf(RunAll(v, es, flushEvery), k)) == Rows(LogOf(v, k)) + RowsFor(es, k)
  {
    hide Apply, LogOf, OpenOnDisk, Rows;
    if es == [] {
    } else {
      var init, e := es[..|es|-1], es[|es|-1];
      NothingIsLost(v, init, flushEvery, k);
      EventAddsRow(RunAll(v, init, flushEvery), e, flushEvery, k);
    }
  }

  lemma EventOpens(v: Snapshot, e: Event, flushEvery: int)
    requires OpenOnDisk(v)
    ensures OpenOnDisk(Apply(v, e, flushEvery))
  {
    hide Apply, AfterRotate, AfterFlush, Appended, LogOf, OpenOnDisk, FileWellFormed;
    var r, u, k := AfterRotate(v, e.today, e.expired), Unflushed(v, e), Key(e.row.symbol, e.today);
    RotateClosesDay(v, e.today, e.expired);
    AppendLog(r, e.row, k);
    CountingIsSilent(Appended(r, e.row), u.buf, k);
    FlushKeepsOpen(u);
    ApplyIsFlush(v, e, flushEvery);
  }

  /**
   Over any run, the files of a key never past retention are well formed afterwards exactly if those there before
   were: nothing mends a file left without its header.
   */
  lemma {:induction false} FilesKeepForm(v: Snapshot, es: seq<Event>, flushEvery: int, k: Key)
    requires OpenOnDisk(v)
    requires forall e | e in es :: k !in e.expired
    ensures OpenOnDisk(RunAll(v, es, flushEvery))
    ensures FileWellFormed(RunAll(v, es, flushEvery), k) <==> FileWellFormed(v, k)
  {
    hide Apply, OpenOnDisk;
    if es == [] {
    } else {
      var init, e := es[..|es|-1], es[|es|-1];
      FilesKeepForm(v, init, flushEvery, k);
      EventOpens(RunAll(v, init, flushEvery), e, flushEvery);
      EventKeepsForm(RunAll(v, init, flushEvery), e, flushEvery, k);
    }
  }

  /** Deleting a compressed file spoils none. */
  lemma RotateSparesForm(v: Snapshot, today: string, expired: set<Key>, k: Key)
    requires OpenOnDisk(v) && FileWellFormed(v, k)
    ensures FileWellFormed(AfterRotate(v, today, expired), k)
  {
    hide WellFormed;
    RotateKeepsForm(v, today, {}, k);
  }

  lemma EventSparesForm(v: Snapshot, e: Event, flushEvery: int, k: Key)
    requires OpenOnDisk(v) && FileWellFormed(v, k)
    ensures FileWellFormed(Apply(v, e, flushEvery), k)
  {
    hide Apply, AfterRotate, AfterFlush, Appended, LogOf, OpenOnDisk, FileWellFormed;
    var r, u := AfterRotate(v, e.today, e.expired), Unflushed(v, e);
    RotateClosesDay(v, e.today, e.expired);
    RotateSparesForm(v, e.today, e.expired, k);
    AppendLog(r, e.row, k);
    AppendKeepsForm(r, e.row, k);
    CountingIsSilent(Appended(r, e.row), u.buf, k);
    FlushKeepsForm(u, k);
    ApplyIsFlush(v, e, flushEvery);
  }

  /**
   Over any run, retention included and whatever else is on the disk, every well formed file stays so and every
   file the run creates is one header followed by data rows; the buffers stay exact.
   */
  lemma {:induction false} FilesStayHealthy(v: Snapshot, es: seq<Event>, flushEvery: int)
    requires OpenOnDisk(v)
    ensures var v' := RunAll(v, es, flushEvery);
            && OpenOnDisk(v')
            && (forall k | FileWellFormed(v, k) :: FileWellFormed(v', k))
            && (forall k | k !in v.csv && k !in v.gz :: FileWellFormed(v', k))
            && (BuffersExact(v) ==> BuffersExact(v'))
  {
    hide Apply, OpenOnDisk, BuffersExact, WellFormed, BufferOf;
    if es == [] {
    } else {
      var init, e := es[..|es|-1], es[|es|-1];
      var before := RunAll(v, init, flushEvery);
      FilesStayHealthy(v, init, flushEvery);
      EventOpens(before, e, flushEvery);
      forall k | FileWellFormed(before, k) ensures FileWellFormed(Apply(before, e, flushEvery), k) {
        EventSparesForm(before, e, flushEvery, k);
      }
      if BuffersExact(before) {
        EventBoundsUnflushed(before, e, flushEvery);
      }
    }
  }

  /** Once the recorder has closed, all of it is on the disk. */
  lemma ClosedIsOnDisk(v: Snapshot, k: Key)
    requires OpenOnDisk(v)
    ensures var c := AfterClose(v); ContentOf(c.gz, k) + ContentOf(c.csv, k) == LogOf(v, k)
  {
    FlushKeepsLog(v, k);
    var c := AfterClose(v);
    assert ContentOf(c.gz, k) + ContentOf(c.csv, k) + [] == ContentOf(c.gz, k) + ContentOf(c.csv, k);
  }
}
