/**
 * The PDF backend layer: which backends are installed (a parameter), the
 * choice of backend with the optional configured preference, the `<style>`
 * injection done before handing HTML to wkhtmltopdf, and the guards of
 * `convert_html_to_pdf` and `convert_file`. The renderers themselves are a
 * parameter: whether rendering the given content with the given backend
 * succeeds.
 */
module PdfBackend {
  import opened Wrappers
  import opened Strings

  datatype Backend = Weasyprint | Wkhtmltopdf

  /** Which backends were importable (and, for wkhtmltopdf, found on the path). */
  datatype Availability = Availability(weasyprint: bool, wkhtmltopdf: bool)

  predicate IsAvailable(av: Availability, b: Backend) {
    match b
    case Weasyprint => av.weasyprint
    case Wkhtmltopdf => av.wkhtmltopdf
  }

  // ---------------------------------------------------------------------------
  // Detection and choice
  // ---------------------------------------------------------------------------

  /** `detect_available_backends`: the installed backends, wkhtmltopdf first, each once. */
  method DetectAvailableBackends(av: Availability) returns (available: seq<Backend>)
    ensures forall b :: b in available <==> IsAvailable(av, b)
    ensures |available| <= 2 && (|available| == 2 ==> available[0] != available[1])
    ensures av.wkhtmltopdf ==> |available| >= 1 && available[0] == Wkhtmltopdf
  {
    available := [];
    if av.wkhtmltopdf {
      available := available + [Wkhtmltopdf];
    }
    if av.weasyprint {
      available := available + [Weasyprint];
    }
  }

  /**
   * `get_default_backend`: a configured `pdf.backend` (compared lower-cased)
   * wins when that backend is installed; otherwise wkhtmltopdf, then
   * WeasyPrint, then none. An absent or empty setting is no preference.
   */
  function DefaultBackend(preferred: Option<string>, av: Availability): Option<Backend> {
    if preferred.Some? && preferred.value != [] && Lower(preferred.value) == "wkhtmltopdf" && av.wkhtmltopdf then
      Some(Wkhtmltopdf)
    else if preferred.Some? && preferred.value != [] && Lower(preferred.value) == "weasyprint" && av.weasyprint then
      Some(Weasyprint)
    else if av.wkhtmltopdf then Some(Wkhtmltopdf)
    else if av.weasyprint then Some(Weasyprint)
    else None
  }

  /** The preference the configuration names, if it names a known backend. */
  function Named(preferred: Option<string>): Option<Backend> {
    if preferred.None? then None
    else if Lower(preferred.value) == "wkhtmltopdf" then Some(Wkhtmltopdf)
    else if Lower(preferred.value) == "weasyprint" then Some(Weasyprint)
    else None
  }

  /**
   * The chosen backend is always installed; it is the configured one whenever
   * that one is installed, wkhtmltopdf is preferred otherwise, and there is
   * none exactly when neither backend is installed.
   */
  lemma DefaultBackendMeaning(preferred: Option<string>, av: Availability)
    ensures var r := DefaultBackend(preferred, av);
      && (r.Some? ==> IsAvailable(av, r.value))
      && (r.None? <==> !av.weasyprint && !av.wkhtmltopdf)
      && (Named(preferred).Some? && IsAvailable(av, Named(preferred).value) ==> r == Named(preferred))
      && (!(Named(preferred).Some? && IsAvailable(av, Named(preferred).value)) ==>
            r == if av.wkhtmltopdf then Some(Wkhtmltopdf) else if av.weasyprint then Some(Weasyprint) else None)
  {
    if preferred.Some? && preferred.value == [] {
      assert Lower(preferred.value) == [];
    }
  }

  /** An upper-case setting is honoured: `WeasyPrint` selects WeasyPrint when it is installed. */
  lemma PreferenceIgnoresCase()
    ensures DefaultBackend(Some("WeasyPrint"), Availability(true, true)) == Some(Weasyprint)
  {
    var s := "WeasyPrint";
    assert Lower(s) == "weasyprint";
  }

  // ---------------------------------------------------------------------------
  // Style injection for wkhtmltopdf
  // ---------------------------------------------------------------------------

  function StyleTag(css: string): string {
    "<style>" + css + "</style>"
  }

  /** `s.find(c, from)` for a single character. */
  function FindFrom(s: string, c: char, from: nat): (r: Option<nat>)
    ensures r.Some? ==> from <= r.value < |s| && s[r.value] == c && forall j :: from <= j < r.value ==> s[j] != c
    ensures r.None? ==> forall j :: from <= j < |s| ==> s[j] != c
    decreases |s| - from
  {
    if from >= |s| then None
    else if s[from] == c then Some(from)
    else FindFrom(s, c, from + 1)
  }

  /**
   * The end of the first match of `<name[^>]*>`, ignoring case: the text
   * `<name` at its first case-insensitive occurrence, then everything up to
   * and including the next `>`.
   */
  function TagEnd(s: string, name: string): (r: Option<nat>)
    ensures r.Some? ==> exists i :: IndexFrom(Lower(s), "<" + name, 0) == Some(i)
                          && i + 1 + |name| <= r.value - 1 && r.value <= |s| && s[r.value - 1] == '>'
                          && forall j :: i + 1 + |name| <= j < r.value - 1 ==> s[j] != '>'
  {
    match IndexFrom(Lower(s), "<" + name, 0)
    case None => None
    case Some(i) =>
      match FindFrom(s, '>', i + 1 + |name|)
      case None => None
      case Some(j) => Some(j + 1)
  }

  /** The injection step of `_convert_wkhtmltopdf`. */
  function InjectCss(html: string, css: Option<string>): string {
    if css.None? || css.value == [] then html
    else
      var style := StyleTag(css.value);
      var lower := Lower(html);
      if Contains(lower, "<head>") then
        match TagEnd(html, "head")
        case Some(p) => html[..p] + style + html[p..]
        case None => html
      else if Contains(lower, "<html>") then
        match TagEnd(html, "html")
        case Some(p) => html[..p] + "<head>" + style + "</head>" + html[p..]
        case None => html
      else "<html><head>" + style + "</head>" + html + "</html>"
  }

  /** Lower-casing keeps `>` exactly where it was. */
  lemma LowerKeepsAngle(s: string, k: nat)
    requires k < |s|
    ensures Lower(s)[k] == '>' <==> s[k] == '>'
  {
  }

  /** When the lower-cased text contains `<name>`, the tag search succeeds. */
  lemma TagFound(s: string, name: string)
    requires Contains(Lower(s), "<" + name + ">")
    ensures TagEnd(s, name).Some?
  {
    var pat := "<" + name;
    var j :| 0 <= j <= |Lower(s)| - |pat + ">"| && OccursAt(Lower(s), pat + ">", j);
    assert Lower(s)[j..j + |pat|] == (pat + ">")[..|pat|];
    assert OccursAt(Lower(s), pat, j);
    IndexFromContains(Lower(s), pat);
    assert Contains(Lower(s), pat);
    var i := IndexFrom(Lower(s), pat, 0).value;
    assert i <= j;
    assert Lower(s)[j + |pat|] == (pat + ">")[|pat|];
    LowerKeepsAngle(s, j + |pat|);
  }

  /**
   * With custom CSS the style always reaches the document: right after the
   * first `<head…>` tag when there is a head, inside a new head right after
   * `<html…>` when there is only an html tag, and around the whole content
   * otherwise; the original text is kept on both sides of the insertion, and
   * the tag is found and ends inside the text (`TagEnd` says where: just past
   * the first `>` after the first case-insensitive `<head` or `<html`).
   * Without custom CSS the content is unchanged.
   */
  lemma InjectCssMeaning(html: string, css: Option<string>)
    ensures css.None? || css == Some("") ==> InjectCss(html, css) == html
    ensures css.Some? && css.value != [] && Contains(Lower(html), "<head>") ==>
              TagEnd(html, "head").Some? && TagEnd(html, "head").value <= |html|
              && InjectCss(html, css) == html[..TagEnd(html, "head").value] + StyleTag(css.value) + html[TagEnd(html, "head").value..]
    ensures css.Some? && css.value != [] && !Contains(Lower(html), "<head>") && Contains(Lower(html), "<html>") ==>
              TagEnd(html, "html").Some? && TagEnd(html, "html").value <= |html|
              && InjectCss(html, css) == html[..TagEnd(html, "html").value] + "<head>" + StyleTag(css.value) + "</head>"
                                         + html[TagEnd(html, "html").value..]
    ensures css.Some? && css.value != [] && !Contains(Lower(html), "<head>") && !Contains(Lower(html), "<html>") ==>
              InjectCss(html, css) == "<html><head>" + StyleTag(css.value) + "</head>" + html + "</html>"
  {
    if css.Some? && css.value != [] {
      var lower := Lower(html);
      if Contains(lower, "<head>") {
        assert "<head>" == "<" + "head" + ">";
        TagFound(html, "head");
      } else if Contains(lower, "<html>") {
        assert "<html>" == "<" + "html" + ">";
        TagFound(html, "html");
      }
    }
  }

  // ---------------------------------------------------------------------------
  // Conversion guards
  // ---------------------------------------------------------------------------

  /** The content each backend is handed: wkhtmltopdf gets the CSS spliced in, WeasyPrint gets it as a stylesheet. */
  function RenderedContent(b: Backend, html: string, css: Option<string>): string {
    match b
    case Wkhtmltopdf => InjectCss(html, css)
    case Weasyprint => html
  }

  /**
   * `convert_html_to_pdf`: the given backend, or the default one; false when
   * there is none or it is not installed, otherwise the renderer's outcome.
   */
  function ConvertHtmlToPdf(html: string, backend: Option<Backend>, css: Option<string>,
                            preferred: Option<string>, av: Availability,
                            render: (Backend, string) -> bool): bool {
    var b := if backend.Some? then backend else DefaultBackend(preferred, av);
    match b
    case None => false
    case Some(k) => IsAvailable(av, k) && render(k, RenderedContent(k, html, css))
  }

  /**
   * Success means an installed backend rendered the document: the requested one
   * when a backend is given (false when it is not installed), otherwise the
   * default one; with no backend resolved the result is false.
   */
  lemma ConvertHtmlMeaning(html: string, backend: Option<Backend>, css: Option<string>,
                           preferred: Option<string>, av: Availability, render: (Backend, string) -> bool)
    ensures backend.Some? ==>
              (ConvertHtmlToPdf(html, backend, css, preferred, av, render) <==>
                 IsAvailable(av, backend.value) && render(backend.value, RenderedContent(backend.value, html, css)))
    ensures backend.None? ==>
              (ConvertHtmlToPdf(html, backend, css, preferred, av, render) <==>
                 DefaultBackend(preferred, av).Some?
                 && render(DefaultBackend(preferred, av).value, RenderedContent(DefaultBackend(preferred, av).value, html, css)))
    ensures ConvertHtmlToPdf(html, backend, css, preferred, av, render) ==>
              exists k :: IsAvailable(av, k) && render(k, RenderedContent(k, html, css))
    ensures backend.None? && !av.weasyprint && !av.wkhtmltopdf ==> !ConvertHtmlToPdf(html, backend, css, preferred, av, render)
  {
    DefaultBackendMeaning(preferred, av);
  }

  /** The input file as `convert_file` finds it. */
  datatype InputFile = Missing | Unreadable | Contents(text: string)

  /** What `convert_file` reports, and whether it removes the input. */
  datatype FileOutcome = FileOutcome(success: bool, deletesInput: bool)

  /** `convert_file`: false for a missing or unreadable input; the input is removed only after a success with `delete_input`. */
  function ConvertFile(input: InputFile, backend: Option<Backend>, deleteInput: bool,
                       preferred: Option<string>, av: Availability,
                       render: (Backend, string) -> bool): FileOutcome {
    match input
    case Missing => FileOutcome(false, false)
    case Unreadable => FileOutcome(false, false)
    case Contents(text) =>
      var ok := ConvertHtmlToPdf(text, backend, None, preferred, av, render);
      FileOutcome(ok, ok && deleteInput)
  }

  /** A missing input fails without touching anything; the input is deleted exactly when the conversion succeeded and deletion was asked for. */
  lemma ConvertFileMeaning(input: InputFile, backend: Option<Backend>, deleteInput: bool,
                           preferred: Option<string>, av: Availability, render: (Backend, string) -> bool)
    ensures var out := ConvertFile(input, backend, deleteInput, preferred, av, render);
      && (input.Missing? ==> out == FileOutcome(false, false))
      && (out.deletesInput <==> out.success && deleteInput)
      && (out.success ==> input.Contents? && ConvertHtmlToPdf(input.text, backend, None, preferred, av, render))
  {
  }
}
