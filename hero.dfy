/** The hero carousel: the slide list of the admin page `HeroAdminPage.jsx`,
    updated locally after each successful request, and the carousel of
    `HeroSection.jsx`, which shows the slides made for the device. */
module Hero {
  import opened Maybe
  import opened JsString
  import opened Seqs

  /** A `heroSlides` document with its id; `slideType` is its `type`, which
      a document may lack. */
  datatype Slide = Slide(id: string, title: string, subtitle: string, image: string, slideType: Option<string>)

  /** The add form. */
  datatype SlideForm = SlideForm(title: string, subtitle: string, image: string, slideType: string)

  const Horizontal := "horizontal"
  const Vertical := "vertical"

  /** The form the page starts with and returns to after an add. */
  const EmptyForm := SlideForm("", "", "", Horizontal)

  const AddError := "Error al agregar el slide"
  const DeleteError := "Error al eliminar el slide"
  const UpdateError := "Error al actualizar el slide"

  /** What a request to the functions came back with: a failure status, or
      success with the `slide` of its body (the add and update endpoints
      return the slide they stored). */
  datatype Reply = Failed | Stored(slide: Slide)

  /** The page's state. */
  datatype AdminState = AdminState(slides: seq<Slide>, error: Option<string>, form: SlideForm,
                                   editing: Option<Slide>)

  function Ids(slides: seq<Slide>): seq<string> {
    seq(|slides|, i requires 0 <= i < |slides| => slides[i].id)
  }

  /** `handleAddSlide` after its request. */
  function AfterAdd(st: AdminState, reply: Reply): AdminState {
    match reply
    case Failed => st.(error := Some(AddError))
    case Stored(s) => st.(slides := st.slides + [s], form := EmptyForm)
  }

  /** `prev.filter((slide) => slide.id !== id)` */
  function WithoutId(slides: seq<Slide>, id: string): seq<Slide> {
    Filter(slides, (s: Slide) => s.id != id)
  }

  /** `handleDeleteSlide` after its request; `confirmed` is the answer to the
      confirmation dialog, and nothing is sent without it. */
  function AfterDelete(st: AdminState, id: string, confirmed: bool, ok: bool): AdminState {
    if !confirmed then st
    else if !ok then st.(error := Some(DeleteError))
    else st.(slides := WithoutId(st.slides, id))
  }

  /** `prev.map((slide) => (slide.id === s.id ? s : slide))` */
  function Replaced(slides: seq<Slide>, s: Slide): (r: seq<Slide>)
    ensures |r| == |slides|
  {
    seq(|slides|, i requires 0 <= i < |slides| => if slides[i].id == s.id then s else slides[i])
  }

  /** `handleUpdateSlide` after its request. */
  function AfterUpdate(st: AdminState, reply: Reply): AdminState {
    if st.editing.None? then st
    else match reply
      case Failed => st.(error := Some(UpdateError))
      case Stored(s) => st.(slides := Replaced(st.slides, s), editing := None)
  }

  /** A successful add appends exactly the stored slide and resets the form
      to empty fields with a horizontal type; a failed one only records the
      error. */
  lemma AddSpec(st: AdminState, reply: Reply)
    ensures reply.Stored? ==>
              AfterAdd(st, reply).slides == st.slides + [reply.slide]
              && Ids(AfterAdd(st, reply).slides) == Ids(st.slides) + [reply.slide.id]
              && AfterAdd(st, reply).form.slideType == Horizontal
              && AfterAdd(st, reply).form.title == "" && AfterAdd(st, reply).form.image == ""
    ensures reply.Failed? ==>
              AfterAdd(st, reply) == st.(error := Some(AddError))
  {
  }

  /** A successful delete leaves no slide with the id and keeps every other
      slide, in order. */
  lemma DeleteSpec(st: AdminState, id: string)
    ensures var after := AfterDelete(st, id, true, true).slides;
            && (forall s :: s in after <==> s in st.slides && s.id != id)
            && IsSubsequence(after, st.slides)
    ensures AfterDelete(st, id, true, false).slides == st.slides
    ensures AfterDelete(st, id, false, true) == st
  {
    var keep := (s: Slide) => s.id != id;
    forall s ensures s in WithoutId(st.slides, id) <==> s in st.slides && s.id != id {
      FilterMembership(st.slides, keep, s);
    }
    FilterIsSubsequence(st.slides, keep);
  }

  /** A successful update replaces exactly the slides with the stored
      slide's id, leaves every other slide where it was and keeps the list
      of ids; a failed one or one with nothing being edited keeps the
      slides. */
  lemma UpdateSpec(st: AdminState, reply: Reply)
    ensures st.editing.Some? && reply.Stored? ==>
              var after := AfterUpdate(st, reply).slides;
              && Ids(after) == Ids(st.slides)
              && (forall i :: 0 <= i < |after| ==>
                    (st.slides[i].id == reply.slide.id ==> after[i] == reply.slide)
                    && (st.slides[i].id != reply.slide.id ==> after[i] == st.slides[i]))
              && AfterUpdate(st, reply).editing.None?
    ensures reply.Failed? ==> AfterUpdate(st, reply).slides == st.slides
    ensures st.editing.None? ==> AfterUpdate(st, reply) == st
  {
  }

  // ---------------------------------------------------------------------
  // The carousel

  /** `isMobile ? slide.type === 'vertical' : slide.type === 'horizontal'` */
  predicate ForDevice(s: Slide, isMobile: bool) {
    s.slideType == Some(if isMobile then Vertical else Horizontal)
  }

  /** `filteredHeroSlides` */
  function Visible(slides: seq<Slide>, isMobile: bool): seq<Slide> {
    Filter(slides, (s: Slide) => ForDevice(s, isMobile))
  }

  /** One indicator button: the slide it targets, whether it is active, and
      its `aria-label`. */
  datatype Indicator = Indicator(target: nat, active: bool, ariaLabel: string)

  /** One carousel item: its slide and whether it is active. */
  datatype Item = Item(slide: Slide, active: bool)

  function Indicators(visible: seq<Slide>): (r: seq<Indicator>)
    ensures |r| == |visible|
  {
    seq(|visible|, i requires 0 <= i < |visible| => Indicator(i, i == 0, "Slide " + IntToString(i + 1)))
  }

  function Items(visible: seq<Slide>): (r: seq<Item>)
    ensures |r| == |visible|
  {
    seq(|visible|, i requires 0 <= i < |visible| => Item(visible[i], i == 0))
  }

  /** The carousel shows exactly the slides of the device's type, in their
      stored order; slides without a type show on neither device. */
  lemma VisibleSpec(slides: seq<Slide>, isMobile: bool)
    ensures forall s :: s in Visible(slides, isMobile) <==> s in slides && ForDevice(s, isMobile)
    ensures IsSubsequence(Visible(slides, isMobile), slides)
    ensures forall s :: s in slides && s.slideType.None? ==> s !in Visible(slides, isMobile)
  {
    var keep := (s: Slide) => ForDevice(s, isMobile);
    forall s ensures s in Visible(slides, isMobile) <==> s in slides && ForDevice(s, isMobile) {
      FilterMembership(slides, keep, s);
    }
    FilterIsSubsequence(slides, keep);
  }

  /** When there is a slide, exactly one item and one indicator are active,
      both the first; indicator `i` targets slide `i`, and the labels are
      "Slide 1", "Slide 2", ... and all different. */
  lemma CarouselSpec(visible: seq<Slide>)
    ensures forall i :: 0 <= i < |visible| ==> (Items(visible)[i].active <==> i == 0)
    ensures forall i :: 0 <= i < |visible| ==> (Indicators(visible)[i].active <==> i == 0)
    ensures forall i :: 0 <= i < |visible| ==>
              Indicators(visible)[i].target == i && Items(visible)[i].slide == visible[i]
    ensures forall i, j :: 0 <= i < j < |visible| ==> Indicators(visible)[i].ariaLabel != Indicators(visible)[j].ariaLabel
  {
    forall i, j | 0 <= i < j < |visible|
      ensures Indicators(visible)[i].ariaLabel != Indicators(visible)[j].ariaLabel
    {
      var a, b := IntToString(i + 1), IntToString(j + 1);
      if "Slide " + a == "Slide " + b {
        assert a == ("Slide " + a)[6..] && b == ("Slide " + b)[6..];
        IntToStringInjective(i + 1, j + 1);
      }
    }
  }
}
