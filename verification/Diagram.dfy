/** A sequence diagram as it is authored: its participants and its rows, top to bottom (make_diagrams.py). */
module Diagram {
  import opened Optional

  datatype Span = Span(left: real, right: real)

  datatype Row =
    | Frame(title: string, own: Option<Span>)
    | EndFrame
    | Msg(source: string, target: string, arrow: string, text: string)
    | Note(over: string, lines: seq<string>)

  const CALL: string := "call"

  datatype Table = Table(width: int, lanes: map<string, real>, frameSpan: Span, rows: seq<Row>)
}
