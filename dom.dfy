/** The page elements the browser scripts show and hide. */
module Dom {
  /** A page element; only its inline `style.display` is modelled. */
  class Element {
    var display: string

    constructor(display: string)
      ensures this.display == display
    {
      this.display := display;
    }
  }
}
