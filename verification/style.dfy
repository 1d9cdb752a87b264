/**
 * The glyph set a table is drawn with (`SimpleBorderStyle`), and the three
 * built-in instances.
 */
module Style {

  /** Eleven glyphs; no validation: degenerate styles (all blanks, all `+`) are legal. */
  datatype BorderStyle = BorderStyle(
    vertical: char,
    horizontal: char,
    horizontalUp: char,
    horizontalDown: char,
    verticalRight: char,
    verticalLeft: char,
    topLeft: char,
    topRight: char,
    bottomLeft: char,
    bottomRight: char,
    cross: char)
  {
    /**
     * No glyph is a line feed or a carriage return, so every rendered border
     * and cell row stays one physical line.
     */
    predicate NoLineBreaks()
    {
      && vertical != '\n' && vertical != '\r'
      && horizontal != '\n' && horizontal != '\r'
      && horizontalUp != '\n' && horizontalUp != '\r'
      && horizontalDown != '\n' && horizontalDown != '\r'
      && verticalRight != '\n' && verticalRight != '\r'
      && verticalLeft != '\n' && verticalLeft != '\r'
      && topLeft != '\n' && topLeft != '\r'
      && topRight != '\n' && topRight != '\r'
      && bottomLeft != '\n' && bottomLeft != '\r'
      && bottomRight != '\n' && bottomRight != '\r'
      && cross != '\n' && cross != '\r'
    }
  }

  /** Single thin box-drawing lines. */
  const Thin := BorderStyle('│', '─', '┴', '┬', '├', '┤', '┌', '┐', '└', '┘', '┼')

  /** Double box-drawing lines. */
  const Double := BorderStyle('║', '═', '╩', '╦', '╠', '╣', '╔', '╗', '╚', '╝', '╬')

  /** ASCII only: `|`, `-` and `+` everywhere else. */
  const Ascii := BorderStyle('|', '-', '+', '+', '+', '+', '+', '+', '+', '+', '+')

  /** None of the built-in styles draws a line break. */
  lemma BuiltInStylesHaveNoLineBreaks()
    ensures Thin.NoLineBreaks() && Double.NoLineBreaks() && Ascii.NoLineBreaks()
  {
  }
}
