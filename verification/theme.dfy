/**
 The colour palette that every component of the page reads from the theme
 context. Colours are opaque CSS values; the components here only choose
 between them and never change the palette.
 */
module Theme {

  /** The active palette: `background`, `main_color`, `sub_color` and `text_color`. */
  datatype Palette = Palette(background: string, mainColor: string, subColor: string, textColor: string)

  /** True when a highlighted element can be told apart from a plain one. */
  predicate Distinguishable(theme: Palette) {
    theme.mainColor != theme.subColor
  }
}
