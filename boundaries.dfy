/** The `ErrorBoundary` component: one field holding the caught error, and the render choice it drives. */
module Boundaries {
  import opened Options
  import Fetchers

  const ErrorPrefix := "Error: "

  /** What the boundary renders: its children, or the error display text. */
  datatype View = Children | ErrorDisplay(text: string)

  class ErrorBoundary {
    var error: Option<Fetchers.Error>

    constructor ()
      ensures error == None
    {
      error := None;
    }

    /** `getDerivedStateFromError(e)` merged into the state: the boundary now holds `e`. */
    method Capture(e: Fetchers.Error)
      modifies this
      ensures error == Some(e)
    {
      error := Some(e);
    }

    /** `render()`: the children while no error is held; otherwise the error display,
        which is "Error: " followed by the held error's message. */
    function Render(): (v: View)
      reads this
      ensures v.Children? <==> error.None?
      ensures v.ErrorDisplay? ==>
        && |v.text| >= |ErrorPrefix|
        && v.text[..|ErrorPrefix|] == ErrorPrefix
        && v.text[|ErrorPrefix|..] == error.value.message
    {
      if error.Some? then ErrorDisplay(ErrorPrefix + error.value.message) else Children
    }
  }
}
