/** The loader's two far16 API tables: module, ordinal and packed argument widths. */
module Far16Tables {
  import opened StubEmitter
  import opened EmxEmitter

  /** A row its code generator compiles: the verifier checks every row below, so no row of
      either table can reach a fatal branch. */
  type Row = d: ApiDesc | |d.widths| <= MAX_ARGS && WidthsKnown(d.widths)
    witness ApiDesc("", 0, [])

  const DOSCALLS: seq<Row> := [
    ApiDesc("DOSCALLS", 14, [2, 2, 4, 4, 4]),
    ApiDesc("DOSCALLS", 32, [4]),
    ApiDesc("DOSCALLS", 50, [2, 2]),
    ApiDesc("DOSCALLS", 89, [4, 4, 2])
  ]

  const VIOCALLS_1: seq<Row> := [
    ApiDesc("VIOCALLS", 7, [2, 4, 2, 2, 2, 2, 2]),
    ApiDesc("VIOCALLS", 9, [2, 4, 4]),
    ApiDesc("VIOCALLS", 13, [2, 2, 2, 2, 4]),
    ApiDesc("VIOCALLS", 15, [2, 2, 2]),
    ApiDesc("VIOCALLS", 19, [2, 2, 4]),
    ApiDesc("VIOCALLS", 21, [2, 4]),
    ApiDesc("VIOCALLS", 24, [2, 2, 2, 4, 4]),
    ApiDesc("VIOCALLS", 26, [2, 2, 2, 2, 4])
  ]

  const VIOCALLS_2: seq<Row> := [
    ApiDesc("VIOCALLS", 27, [2, 4]),
    ApiDesc("VIOCALLS", 32, [2, 4]),
    ApiDesc("VIOCALLS", 48, [2, 4, 2, 2, 2, 4]),
    ApiDesc("VIOCALLS", 52, [2, 2, 2, 2, 4])
  ]

  const KBDCALLS: seq<Row> := [
    ApiDesc("KBDCALLS", 4, [2, 2, 4]),
    ApiDesc("KBDCALLS", 9, [2, 2, 4, 4]),
    ApiDesc("KBDCALLS", 10, [2, 4]),
    ApiDesc("KBDCALLS", 11, [2, 4]),
    ApiDesc("KBDCALLS", 13, [2])
  ]

  const MOUCALLS_1: seq<Row> := [
    ApiDesc("MOUCALLS", 1, [2, 4, 4]),
    ApiDesc("MOUCALLS", 2, [2, 4, 4]),
    ApiDesc("MOUCALLS", 3, [2, 4]),
    ApiDesc("MOUCALLS", 4, [2, 4]),
    ApiDesc("MOUCALLS", 6, [2, 4]),
    ApiDesc("MOUCALLS", 7, [2]),
    ApiDesc("MOUCALLS", 8, [2, 4]),
    ApiDesc("MOUCALLS", 9, [2])
  ]

  const MOUCALLS_2: seq<Row> := [
    ApiDesc("MOUCALLS", 10, [2, 4]),
    ApiDesc("MOUCALLS", 11, [2, 4]),
    ApiDesc("MOUCALLS", 13, [2, 4]),
    ApiDesc("MOUCALLS", 14, []),
    ApiDesc("MOUCALLS", 15, [2, 4]),
    ApiDesc("MOUCALLS", 16, [2, 4]),
    ApiDesc("MOUCALLS", 17, [4, 4]),
    ApiDesc("MOUCALLS", 18, [2, 4])
  ]

  const MOUCALLS_3: seq<Row> := [
    ApiDesc("MOUCALLS", 19, [2, 4]),
    ApiDesc("MOUCALLS", 20, [2, 4, 4]),
    ApiDesc("MOUCALLS", 21, [2, 4]),
    ApiDesc("MOUCALLS", 22, [2, 4]),
    ApiDesc("MOUCALLS", 23, [2]),
    ApiDesc("MOUCALLS", 24, [4, 4, 4]),
    ApiDesc("MOUCALLS", 25, [2, 4]),
    ApiDesc("MOUCALLS", 26, [2])
  ]

  const MOUCALLS_4: seq<Row> := [
    ApiDesc("MOUCALLS", 27, [4])
  ]

  const C386_APIS: seq<Row> := DOSCALLS + VIOCALLS_1 + VIOCALLS_2 + KBDCALLS + MOUCALLS_1 + MOUCALLS_2 + MOUCALLS_3 + MOUCALLS_4

  const EMX_APIS: seq<Row> := [
    ApiDesc("DOSCALLS", 14, [2, 2, 4, 4, 4]),
    ApiDesc("DOSCALLS", 15, [2, 2, 2, 2]),
    ApiDesc("KBDCALLS", 4, [2, 2, 4]),
    ApiDesc("KBDCALLS", 9, [2, 2, 4, 4]),
    ApiDesc("KBDCALLS", 10, [2, 4]),
    ApiDesc("KBDCALLS", 11, [2, 4]),
    ApiDesc("KBDCALLS", 13, [2]),
    ApiDesc("KBDCALLS", 22, [2, 4]),
    ApiDesc("VIOCALLS", 21, [2, 4])
  ]

  /** Both tables meet what their emitters ask: every row has a known width for each of at most
      eight arguments. */
  lemma TablesCompile()
    ensures |EMX_APIS| <= 29 && DescsSmall(EMX_APIS) && DescsWellFormed(EMX_APIS)
    ensures DescsSmall(C386_APIS) && DescsWellFormed(C386_APIS)
  {
    forall i | 0 <= i < |EMX_APIS| ensures |EMX_APIS[i].widths| <= MAX_ARGS && WidthsKnown(EMX_APIS[i].widths) {
      var row: Row := EMX_APIS[i];
    }
    forall i | 0 <= i < |C386_APIS| ensures |C386_APIS[i].widths| <= MAX_ARGS && WidthsKnown(C386_APIS[i].widths) {
      var row: Row := C386_APIS[i];
    }
  }
}
