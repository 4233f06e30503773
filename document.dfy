/**
  The document builder's input: an ordered list of typed blocks (reportlab's
  `Paragraph`, `Spacer` and `PageBreak` flowables with a sample style).
 */
module Document {

  datatype Style = Title | Normal | Italic

  datatype Block =
    | Paragraph(text: string, style: Style)
    | Spacer(width: int, height: int)
    | PageBreak
}
