/** The medical-record page (`prontuario`): a patient's entries listed by
    ascending session time, with the chart series drawn from them: one
    `dd/mm/YYYY` label and one text length per entry. */
module Ledger {
  import opened Calendar
  import opened Models

  /** The entries of one patient, in store order (the `filter_by` query). */
  function OfPatient(records: seq<MedicalRecord>, pacienteId: int): (r: seq<MedicalRecord>)
    ensures forall e :: e in r ==> e.pacienteId == pacienteId
    ensures forall e: MedicalRecord :: e.pacienteId == pacienteId ==> multiset(r)[e] == multiset(records)[e]
  {
    if records == [] then []
    else
      var init := records[..|records| - 1];
      var last := records[|records| - 1];
      assert records == init + [last];
      var rest := OfPatient(init, pacienteId);
      if last.pacienteId == pacienteId then rest + [last] else rest
  }

  /** Ascending by session time (the `order_by(... .asc())` of the query). */
  ghost predicate SortedBySession(s: seq<MedicalRecord>) {
    forall i, j :: 0 <= i < j < |s| ==> DateTimeLe(s[i].dataSessao, s[j].dataSessao)
  }

  /** Puts `e` into an ascending list after every entry that is not later. */
  function InsertBySession(e: MedicalRecord, s: seq<MedicalRecord>): (r: seq<MedicalRecord>)
    requires SortedBySession(s)
    ensures SortedBySession(r)
    ensures multiset(r) == multiset(s) + multiset{e}
  {
    if s == [] then [e]
    else if DateTimeLe(e.dataSessao, s[0].dataSessao) && e.dataSessao != s[0].dataSessao then
      forall j | 0 <= j < |s| ensures DateTimeLe(e.dataSessao, s[j].dataSessao) {
        if j > 0 { DateTimeLeTransitive(e.dataSessao, s[0].dataSessao, s[j].dataSessao); }
      }
      [e] + s
    else
      DateTimeLeTotal(e.dataSessao, s[0].dataSessao);
      var tail := InsertBySession(e, s[1..]);
      HeadBeforeTail(e, s, tail);
      [s[0]] + tail
  }

  /** When `e` does not go before the head of `s`, the head followed by `e`
      inserted into the rest is ascending and holds `s` plus `e`. */
  lemma HeadBeforeTail(e: MedicalRecord, s: seq<MedicalRecord>, tail: seq<MedicalRecord>)
    requires |s| > 0 && SortedBySession(s)
    requires DateTimeLe(s[0].dataSessao, e.dataSessao)
    requires SortedBySession(tail) && multiset(tail) == multiset(s[1..]) + multiset{e}
    ensures SortedBySession([s[0]] + tail)
    ensures multiset([s[0]] + tail) == multiset(s) + multiset{e}
  {
    assert s == [s[0]] + s[1..];
    forall x | x in tail ensures DateTimeLe(s[0].dataSessao, x.dataSessao) {
      assert x in multiset(tail);
    }
  }

  /** An ascending arrangement of `s`; entries with equal session times keep
      their store order. */
  function SortBySession(s: seq<MedicalRecord>): (r: seq<MedicalRecord>)
    ensures SortedBySession(r)
    ensures multiset(r) == multiset(s)
  {
    if s == [] then []
    else
      assert s == s[..|s| - 1] + [s[|s| - 1]];
      InsertBySession(s[|s| - 1], SortBySession(s[..|s| - 1]))
  }

  /** The listing of `pacienteId`'s entries: ascending by session time, and
      holding each of that patient's entries as often as the store does and
      nothing else. */
  function ListEntries(records: seq<MedicalRecord>, pacienteId: int): (r: seq<MedicalRecord>)
    ensures SortedBySession(r)
    ensures forall e: MedicalRecord :: multiset(r)[e] == if e.pacienteId == pacienteId then multiset(records)[e] else 0
  {
    var mine := OfPatient(records, pacienteId);
    var r := SortBySession(mine);
    forall e: MedicalRecord | e.pacienteId != pacienteId ensures multiset(r)[e] == 0 {
      assert e !in mine;
    }
    r
  }

  /** What the page shows: the entries and the two chart series. */
  datatype Chart = Chart(evolucoes: seq<MedicalRecord>, labels: seq<string>, valores: seq<int>)

  /** The chart of `pacienteId`'s entries. Each label reads back as its
      entry's session date, each value is its entry's text length, and both
      series run parallel to the listing. */
  function ChartOf(records: seq<MedicalRecord>, pacienteId: int): (c: Chart)
    requires forall e :: e in records ==> ValidDateTime(e.dataSessao)
    ensures c.evolucoes == ListEntries(records, pacienteId)
    ensures |c.labels| == |c.evolucoes| && |c.valores| == |c.evolucoes|
    ensures forall i :: 0 <= i < |c.evolucoes| ==>
      ParseDate(c.labels[i]) == Some(c.evolucoes[i].dataSessao.date)
      && c.valores[i] == |c.evolucoes[i].evolucao|
  {
    var evs := ListEntries(records, pacienteId);
    ListedAreValid(records, pacienteId);
    Chart(evs, Labels(evs), Valores(evs))
  }

  /** The `%d/%m/%Y` label of each entry's session date; each reads back as
      that date. */
  function Labels(evs: seq<MedicalRecord>): (labels: seq<string>)
    requires forall e :: e in evs ==> ValidDateTime(e.dataSessao)
    ensures |labels| == |evs|
    ensures forall i :: 0 <= i < |evs| ==> ParseDate(labels[i]) == Some(evs[i].dataSessao.date)
  {
    forall i | 0 <= i < |evs| ensures ValidDate(evs[i].dataSessao.date) {
      assert evs[i] in evs;
      assert ValidDateTime(evs[i].dataSessao);
    }
    var labels := seq(|evs|, i requires 0 <= i < |evs| => FormatDate(evs[i].dataSessao.date));
    forall i | 0 <= i < |evs| ensures ParseDate(labels[i]) == Some(evs[i].dataSessao.date) {
      ParseFormatDate(evs[i].dataSessao.date);
    }
    labels
  }

  /** The text length of each entry. */
  function Valores(evs: seq<MedicalRecord>): (valores: seq<int>)
    ensures |valores| == |evs|
    ensures forall i :: 0 <= i < |evs| ==> valores[i] == |evs[i].evolucao|
  {
    seq(|evs|, i requires 0 <= i < |evs| => |evs[i].evolucao|)
  }

  /** Every listed entry comes from the store, so it keeps the store's
      well-formed session moments. */
  lemma ListedAreValid(records: seq<MedicalRecord>, pacienteId: int)
    requires forall e :: e in records ==> ValidDateTime(e.dataSessao)
    ensures forall e :: e in ListEntries(records, pacienteId) ==> ValidDateTime(e.dataSessao)
  {
    var evs := ListEntries(records, pacienteId);
    forall e | e in evs ensures ValidDateTime(e.dataSessao) {
      assert e in multiset(evs);
      assert e in multiset(records);
    }
  }

  /** A newly appended entry shows up once more in its own patient's listing
      and leaves every other patient's listing as it was. */
  lemma AppendShowsInListing(records: seq<MedicalRecord>, e: MedicalRecord, pacienteId: int)
    ensures multiset(ListEntries(records + [e], pacienteId)) ==
      multiset(ListEntries(records, pacienteId)) + (if e.pacienteId == pacienteId then multiset{e} else multiset{})
  {
    var before := ListEntries(records, pacienteId);
    var after := ListEntries(records + [e], pacienteId);
    var extra: multiset<MedicalRecord> := if e.pacienteId == pacienteId then multiset{e} else multiset{};
    forall x ensures multiset(after)[x] == (multiset(before) + extra)[x] {
      assert multiset(records + [e]) == multiset(records) + multiset{e};
    }
  }
}
