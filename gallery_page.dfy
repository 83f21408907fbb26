/** The gallery page: its category bar and the images shown for the selected
    category. The selection (`useState`, initially "All") is an argument. */
module GalleryPage {
  import opened Sequences
  import opened Schema
  import opened Filters

  function CategoryOf(g: GalleryImage): string { g.category }

  /** `["All", ...Array.from(new Set(images.map((img) => img.category)))]` */
  function Categories(images: seq<GalleryImage>): (bar: seq<string>)
    ensures |bar| >= 1 && bar[0] == All
    ensures NoDuplicates(bar[1..])
    ensures forall i :: 0 <= i < |images| ==> images[i].category in bar[1..]
    ensures forall c :: c in bar[1..] ==> exists i :: 0 <= i < |images| && images[i].category == c
    ensures InFirstSeenOrder(bar[1..], Map(CategoryOf, images))
  {
    FilterBar(Map(CategoryOf, images))
  }

  /** The images shown for `selected`: all of them for "All", otherwise those
      of that category, in their order. */
  function FilteredImages(images: seq<GalleryImage>, selected: string): (shown: seq<GalleryImage>)
    ensures selected == All ==> shown == images
    ensures selected != All ==> IsSubsequence(shown, images)
    ensures selected != All ==> forall i :: 0 <= i < |shown| ==> shown[i].category == selected
    ensures |shown| <= |images|
  {
    Selected(images, CategoryOf, selected)
  }

  /** Under a category, every image of that category is listed as often as it
      occurs, and no other image is. */
  lemma FilteredImagesComplete(images: seq<GalleryImage>, selected: string, g: GalleryImage)
    requires selected != All
    ensures multiset(FilteredImages(images, selected))[g] == if g.category == selected then multiset(images)[g] else 0
  {
    MatchingCounts(images, CategoryOf, selected, g);
  }

  /** A category no image has lists nothing. */
  lemma UnknownCategoryShowsNothing(images: seq<GalleryImage>, selected: string)
    requires selected != All
    requires forall i :: 0 <= i < |images| ==> images[i].category != selected
    ensures FilteredImages(images, selected) == []
  {
    NothingMatches(images, CategoryOf, selected);
  }
}
