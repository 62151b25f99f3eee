/** Worked examples of the extraction layer on small concrete inputs. */
module Examples {
  import opened Wrappers
  import opened Dom
  import opened Json
  import Tables
  import Growth
  import Commentary
  import Text

  /** A blank peer row is dropped and the populated one kept. */
  lemma BlankRowDropped()
    ensures Tables.NonBlankRows([[Td(""), Td("")], [Td("1."), Td("HDFC Bank")]]) == [["1.", "HDFC Bank"]]
  {
    var blank: Row := [Td(""), Td("")];
    var full: Row := [Td("1."), Td("HDFC Bank")];
    Tables.NonBlankRowsAppend([blank], [full]);
    Tables.NonBlankRowsSingle(blank);
    Tables.NonBlankRowsSingle(full);
    assert Tables.CellTexts(blank) == ["", ""];
    assert !Tables.HasText(["", ""]);
    assert Tables.CellTexts(full) == ["1.", "HDFC Bank"];
    assert Tables.HasText(["1.", "HDFC Bank"]) by {
      assert ["1.", "HDFC Bank"][0] != [];
    }
    assert [blank] + [full] == [blank, full];
  }

  lemma ClassifyHeading()
    ensures Growth.Classify([Th("Compounded Sales Growth")]) == Growth.HeadingRow("Compounded Sales Growth")
  {
    assert Growth.FirstTh([Th("Compounded Sales Growth")]) == Some("Compounded Sales Growth");
  }

  lemma ClassifyPeriod(period: string, value: string)
    requires period != [] && period[|period| - 1] != ':'
    ensures Growth.Classify([Td(period + ":"), Td(value)]) == Growth.EntryRow(period, value)
  {
    var row: Row := [Td(period + ":"), Td(value)];
    assert Growth.FirstTh(row[1..]) == None;
    assert Growth.TdTexts(row) == [period + ":", value];
    assert (period + ":")[..|period|] == period;
  }

  /** One period row under the current heading adds its entry. */
  lemma StepPeriod(d: Growth.Metrics, h: string, cur: map<string, string>, period: string, value: string)
    requires period != [] && period[|period| - 1] != ':'
    ensures Growth.Step(Growth.State(d, Some(h), cur), [Td(period + ":"), Td(value)])
            == Growth.State(d[h := cur[period := value]], Some(h), cur[period := value])
  {
    ClassifyPeriod(period, value);
  }

  /** Running three rows is taking three steps. */
  lemma RunThree(st0: Growth.State, r0: Row, r1: Row, r2: Row)
    ensures Growth.RunRows(st0, [r0, r1, r2]) == Growth.Step(Growth.Step(Growth.Step(st0, r0), r1), r2)
  {
    var st1 := Growth.Step(st0, r0);
    var st2 := Growth.Step(st1, r1);
    assert [r2][1..] == [];
    assert Growth.RunRows(st2, [r2]) == Growth.Step(st2, r2);
    assert [r1, r2][1..] == [r2];
    assert Growth.RunRows(st1, [r1, r2]) == Growth.RunRows(st2, [r2]);
    assert [r0, r1, r2][1..] == [r1, r2];
  }

  /** A heading row and two period rows give one metric whose period labels have lost
      their trailing colon. */
  lemma GrowthExample()
    ensures Growth.RunRows(Growth.State(map[], None, map[]),
              [[Th("Compounded Sales Growth")], [Td("10 Years:"), Td("17%")], [Td("5 Years:"), Td("14%")]]).data
            == map["Compounded Sales Growth" := map["10 Years" := "17%", "5 Years" := "14%"]]
  {
    var h := "Compounded Sales Growth";
    var st0 := Growth.State(map[], None, map[]);
    var st1 := Growth.State(map[h := map[]], Some(h), map[]);
    var m1: map<string, string> := map["10 Years" := "17%"];
    var st2 := Growth.State(map[h := m1], Some(h), m1);
    var m2 := map["10 Years" := "17%", "5 Years" := "14%"];
    var st3 := Growth.State(map[h := m2], Some(h), m2);
    GrowthExampleStep1();
    GrowthExampleStep2();
    GrowthExampleStep3();
    RunThree(st0, [Th(h)], [Td("10 Years:"), Td("17%")], [Td("5 Years:"), Td("14%")]);
  }

  lemma GrowthExampleStep1()
    ensures Growth.Step(Growth.State(map[], None, map[]), [Th("Compounded Sales Growth")])
            == Growth.State(map["Compounded Sales Growth" := map[]], Some("Compounded Sales Growth"), map[])
  {
    ClassifyHeading();
  }

  lemma GrowthExampleStep2()
    ensures Growth.Step(Growth.State(map["Compounded Sales Growth" := map[]], Some("Compounded Sales Growth"), map[]),
                        [Td("10 Years:"), Td("17%")])
            == Growth.State(map["Compounded Sales Growth" := map["10 Years" := "17%"]], Some("Compounded Sales Growth"),
                            map["10 Years" := "17%"])
  {
    assert "10 Years" + ":" == "10 Years:";
    StepPeriod(map["Compounded Sales Growth" := map[]], "Compounded Sales Growth", map[], "10 Years", "17%");
  }

  lemma GrowthExampleStep3()
    ensures Growth.Step(Growth.State(map["Compounded Sales Growth" := map["10 Years" := "17%"]], Some("Compounded Sales Growth"),
                                     map["10 Years" := "17%"]),
                        [Td("5 Years:"), Td("14%")])
            == Growth.State(map["Compounded Sales Growth" := map["10 Years" := "17%", "5 Years" := "14%"]],
                            Some("Compounded Sales Growth"), map["10 Years" := "17%", "5 Years" := "14%"])
  {
    assert "5 Years" + ":" == "5 Years:";
    StepPeriod(map["Compounded Sales Growth" := map["10 Years" := "17%"]], "Compounded Sales Growth",
               map["10 Years" := "17%"], "5 Years", "14%");
  }

  /** A heading followed by its body block gives one entry; a trailing heading with no
      body block after it is left out. */
  lemma CommentaryExample()
    ensures Commentary.ParseCommentary([Heading("About"), Sub(["Kotak Mahindra Bank is a banking company."]), Heading("Key Points")])
            == map["About" := "Kotak Mahindra Bank is a banking company."]
  {
    var nodes := [Heading("About"), Sub(["Kotak Mahindra Bank is a banking company."]), Heading("Key Points")];
    var r := Commentary.ParseCommentary(nodes);
    assert Commentary.Paired(nodes, 0);
    assert !Commentary.Paired(nodes, 2);
    assert Commentary.LastPaired(nodes, 0, "About");
    assert Text.Join(["Kotak Mahindra Bank is a banking company."]) == "Kotak Mahindra Bank is a banking company.";
    assert r.Keys == {"About"};
  }
}
