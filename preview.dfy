/**
 * The preview pane: the store's template id picks one of three layouts, anything else falls
 * back to the modern one, and the chosen layout is given the store's document as it is.
 */
module Preview {
  import opened ResumeTypes
  import ResumeContext

  datatype Layout = ModernLayout | ClassicLayout | MinimalLayout

  /** A layout element and the `data` it is given. */
  datatype Rendered = Rendered(layout: Layout, data: ResumeData)

  /** The layout each selectable template stands for. */
  function LayoutOf(t: TemplateType): Layout {
    match t
    case Modern => ModernLayout
    case Classic => ClassicLayout
    case Minimal => MinimalLayout
  }

  /** `renderTemplate`: a `switch` on the template id with a modern default. */
  function RenderTemplate(template: string, d: ResumeData): (r: Rendered)
    ensures r.data == d
    ensures template == "classic" ==> r.layout == ClassicLayout
    ensures template == "minimal" ==> r.layout == MinimalLayout
    ensures template != "classic" && template != "minimal" ==> r.layout == ModernLayout
  {
    match template
    case "modern" => Rendered(ModernLayout, d)
    case "classic" => Rendered(ClassicLayout, d)
    case "minimal" => Rendered(MinimalLayout, d)
    case _ => Rendered(ModernLayout, d)
  }

  /** Every template the selector can set renders as its own layout. */
  lemma SelectedTemplateRenders(t: TemplateType, d: ResumeData)
    ensures RenderTemplate(TemplateId(t), d) == Rendered(LayoutOf(t), d)
  {
  }

  /** An id that names no template, as an unchecked stored string can, renders as modern. */
  lemma UnknownTemplateRendersModern(template: string, d: ResumeData)
    requires forall t: TemplateType :: TemplateId(t) != template
    ensures RenderTemplate(template, d) == Rendered(ModernLayout, d)
  {
    assert TemplateId(Classic) != template && TemplateId(Minimal) != template;
  }

  /** A store with no template stored previews in the modern layout. */
  lemma DefaultTemplateRendersModern(storage: map<string, string>, d: ResumeData)
    requires ResumeContext.TemplateKey !in storage
    ensures RenderTemplate(ResumeContext.LoadTemplate(ResumeContext.GetItem(storage, ResumeContext.TemplateKey)), d).layout
      == ModernLayout
  {
  }
}
