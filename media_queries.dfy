/** The viewport helpers of `client/src/utils/mediaQueries.js`. The window is a
    parameter: `None` when there is none (server-side rendering), otherwise its
    inner width in CSS pixels. */
module MediaQueries {
  import opened Js

  /** The Tailwind breakpoints `sm` to `2xl`. */
  const Breakpoints: map<string, int> := map["sm" := 640, "md" := 768, "lg" := 1024, "xl" := 1280, "2xl" := 1536]

  /** `matches(query, type)`. */
  predicate Matches(window: Option<int>, query: string, kind: string)
  {
    if window.None? then false
    else if query !in Breakpoints || Breakpoints[query] == 0 then false
    else if kind == "min" then window.value >= Breakpoints[query]
    else if kind == "max" then window.value < Breakpoints[query]
    else false
  }

  /** `'min'` holds from the breakpoint up and `'max'` below it, so for a known
      query with a window exactly one of them holds; no window, an unknown query
      or another comparison gives false. */
  lemma MatchesSpec(window: Option<int>, query: string, kind: string)
    ensures window.Some? && query in Breakpoints ==>
      (Matches(window, query, "min") <==> window.value >= Breakpoints[query])
      && (Matches(window, query, "max") <==> window.value < Breakpoints[query])
      && (Matches(window, query, "min") != Matches(window, query, "max"))
    ensures window.None? || query !in Breakpoints || (kind != "min" && kind != "max") ==>
      !Matches(window, query, kind)
  {
  }

  predicate IsMobile(window: Option<int>)
  {
    Matches(window, "md", "max")
  }

  predicate IsTablet(window: Option<int>)
  {
    Matches(window, "md", "min") && Matches(window, "lg", "max")
  }

  predicate IsDesktop(window: Option<int>)
  {
    Matches(window, "lg", "min")
  }

  /** Mobile is below 768 pixels, tablet from 768 up to 1024, desktop from 1024;
      with a window exactly one of the three holds, without one none does. */
  lemma ViewportClasses(window: Option<int>)
    ensures window.Some? ==>
      (IsMobile(window) <==> window.value < 768)
      && (IsTablet(window) <==> 768 <= window.value < 1024)
      && (IsDesktop(window) <==> window.value >= 1024)
    ensures window.Some? ==>
      (if IsMobile(window) then 1 else 0) + (if IsTablet(window) then 1 else 0)
      + (if IsDesktop(window) then 1 else 0) == 1
    ensures window.None? ==> !IsMobile(window) && !IsTablet(window) && !IsDesktop(window)
  {
  }
}
