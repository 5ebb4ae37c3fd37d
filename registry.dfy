/** The fixed registry of student groups and the spreadsheet column holding
    each group's lessons (main.py:24-32, main.py:81, main.py:123). */
module Registry {
  import opened Common

  /** The list is written out in the source cohort by cohort, newest intake
      first; these four pieces are those cohorts, in the source's order. */
  const Intake2023: seq<string> := [
    "ТОР-23", "РЭГ-23", "СЭЗС-23", "ПР-23", "ОПИ-23", "ДПИ-23", "МД-23/1", "МД-23/2",
    "ИСИП-23/1", "ИСИП-23/2", "БУ-23", "БД-23", "Ф-23", "ЗИМ-23", "ЮР-23/1", "ЮР-23/2",
    "ПКД-23"]
  const Intake2022: seq<string> := [
    "ТОР-22", "РЭГ-22", "КИП-22", "СЭЗС-22", "ПР-22", "ОПИ-22", "ДПИ-22", "МД-22",
    "ПО-22/1", "ПО-22/2", "БУ-22", "БД-22", "Ф-22", "ЗИМ-22", "ПСО-22/1", "ПСО-22/2", "ПКД-22"]
  const Intake2021: seq<string> := [
    "ТОР-21", "РЭГ-21", "КИП-21", "СЭЗС-21", "ПР-21", "ОПИ-21", "ДПИ-21", "МД-21", "ПО-21",
    "БУ-21", "Ф-21", "ЗИМ-21", "ПСО-21/1", "ПСО-21/2", "ПКД-21"]
  const Intake2020: seq<string> := [
    "ТОР-20", "РЭГ-20", "СЭЗС-20", "ПР-20", "ОПИ-20", "ДПИ-20", "БУ-20", "МД-20", "ПО-20",
    "ПКД-20"]

  /** The known group codes, in spreadsheet column order. */
  const Groups: seq<string> := Intake2023 + Intake2022 + Intake2021 + Intake2020

  /** The first column holding lessons; columns 1 and 2 hold the timetable's own labels. */
  const FirstGroupColumn := 3

  /** The spreadsheet column of a known group: its position in `Groups` plus 3.
      The source computes it only after checking membership. */
  function Column(group: string): (column: int)
    requires group in Groups
    ensures FirstGroupColumn <= column < FirstGroupColumn + |Groups|
    ensures Groups[column - FirstGroupColumn] == group
    ensures forall j :: 0 <= j < column - FirstGroupColumn ==> Groups[j] != group
  {
    IndexOf(Groups, group) + FirstGroupColumn
  }

  /** Within each intake no code repeats. */
  lemma Intake2023Distinct()
    ensures Distinct(Intake2023)
  {
  }

  lemma Intake2022Distinct()
    ensures Distinct(Intake2022)
  {
  }

  lemma Intake2021Distinct()
    ensures Distinct(Intake2021)
  {
  }

  lemma Intake2020Distinct()
    ensures Distinct(Intake2020)
  {
  }

  /** No code belongs to two intakes. */
  lemma Intakes2023And2022Disjoint()
    ensures Disjoint(Intake2023, Intake2022)
  {
  }

  lemma Intakes2023And2021Disjoint()
    ensures Disjoint(Intake2023, Intake2021)
  {
  }

  lemma Intakes2023And2020Disjoint()
    ensures Disjoint(Intake2023, Intake2020)
  {
  }

  lemma Intakes2022And2021Disjoint()
    ensures Disjoint(Intake2022, Intake2021)
  {
  }

  lemma Intakes2022And2020Disjoint()
    ensures Disjoint(Intake2022, Intake2020)
  {
  }

  lemma Intakes2021And2020Disjoint()
    ensures Disjoint(Intake2021, Intake2020)
  {
  }

  /** The registry holds 59 codes and none of them twice. */
  lemma GroupsDistinct()
    ensures |Groups| == 59
    ensures Distinct(Groups)
  {
    Intake2023Distinct();
    Intake2022Distinct();
    Intake2021Distinct();
    Intake2020Distinct();
    Intakes2023And2022Disjoint();
    Intakes2023And2021Disjoint();
    Intakes2023And2020Disjoint();
    Intakes2022And2021Disjoint();
    Intakes2022And2020Disjoint();
    Intakes2021And2020Disjoint();
    DistinctAppend(Intake2023, Intake2022);
    DisjointAppend(Intake2023, Intake2022, Intake2021);
    DistinctAppend(Intake2023 + Intake2022, Intake2021);
    DisjointAppend(Intake2023, Intake2022, Intake2020);
    DisjointAppend(Intake2023 + Intake2022, Intake2021, Intake2020);
    DistinctAppend(Intake2023 + Intake2022 + Intake2021, Intake2020);
  }

  /** Every group's column is exactly its list position plus 3, so the 59
      groups occupy columns 3..61, one column each. */
  lemma ColumnOfPosition(i: nat)
    requires i < |Groups|
    ensures Column(Groups[i]) == i + FirstGroupColumn
  {
    GroupsDistinct();
    IndexOfDistinct(Groups, i);
  }

  /** Two known groups never share a column. */
  lemma ColumnInjective(g: string, h: string)
    requires g in Groups && h in Groups
    ensures Column(g) == Column(h) <==> g == h
  {
    if Column(g) == Column(h) {
      assert g == Groups[Column(g) - FirstGroupColumn];
    }
  }
}
