/** The records of the track-reconstruction program: input hits, output rows and the
    numeric collaborators (integer and floating-point parsers, the tangent-line solver)
    that the model takes as parameters. */
module Hits {
  import opened Wrappers

  /** The range of a C++ `int` on the targets the program is built for. */
  const INT_MIN: int := -0x8000_0000
  const INT_MAX: int := 0x7fff_ffff

  type Int32 = x: int | -0x8000_0000 <= x <= 0x7fff_ffff

  /** One detector reading, as parsed from a row of the input table. */
  datatype Hit = Hit(
    tdcId: Int32,
    chnlId: Int32,
    eventId: Int32,
    triggerLedge: Int32,
    driftTime: real,
    adcTime: real,
    corrTime: real,
    driftRadius: real)

  /** A normalised line a*x + b*y + c = 0. */
  datatype Line = Line(a: real, b: real, c: real)

  /** One output row: a hit of a six-hit track bundle with the bundle's fit. */
  datatype SavedHit = SavedHit(
    trackId: int,
    tdcId: int,
    chnlId: int,
    eventId: int,
    triggerLedge: int,
    adcTime: real,
    driftTime: real,
    corrTime: real,
    dt: real,
    x: real,
    y: real,
    driftRadius: real,
    residual: real,
    a: real,
    b: real,
    c: real,
    chi2ndf: real)

  /** The identity of a hit used for deduplication: (TDCID, CHNLID, eventid, triggerledge).
      The program encodes it as the decimal fields joined by '_', which is injective. */
  datatype TopKey = TopKey(tdcId: int, chnlId: int, eventId: int, triggerLedge: int)

  function KeyOf(h: Hit): TopKey {
    TopKey(h.tdcId, h.chnlId, h.eventId, h.triggerLedge)
  }

  function SavedKeyOf(h: SavedHit): TopKey {
    TopKey(h.tdcId, h.chnlId, h.eventId, h.triggerLedge)
  }

  /** The library routines the program relies on, whose numerics are not modelled:
      `stoi` and `stod` succeed with a value or fail (throw), and the tangent-line
      solver returns a normalised line or fails on a degenerate system. */
  datatype Numerics = Numerics(
    stoi: string -> Option<Int32>,
    stod: string -> Option<real>,
    fitTangentLine: (seq<real>, seq<real>, seq<real>) -> Option<Line>)

  /** What the standard library guarantees of the parsers on an empty field. */
  predicate RejectsEmptyField(num: Numerics) {
    num.stoi("") == None && num.stod("") == None
  }
}
