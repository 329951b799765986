/** The gallery page's state: the search box, the category buttons, the sort
    menu and the image open in the lightbox, with the handlers that change them. */
module GalleryPage {
  import opened Wrappers
  import opened Gallery
  import Cyclic

  class GalleryView {
    /** The gallery items; the page never changes them. */
    const items: seq<Item>
    var selectedImage: Option<Item>
    var searchQuery: string
    var selectedCategory: string
    var sortBy: string

    /** `filteredAndSortedItems` for the current filters. */
    function Displayed(): seq<Item>
      reads this
    {
      Project(items, searchQuery, selectedCategory, sortBy)
    }

    /** The page as it opens: nothing in the lightbox, no filters, newest first. */
    constructor ()
      ensures items == GalleryItems && UniqueIds(items)
      ensures selectedImage == None
      ensures searchQuery == "" && selectedCategory == AllCategories && sortBy == Newest
    {
      items := GalleryItems;
      selectedImage := None;
      searchQuery := "";
      selectedCategory := AllCategories;
      sortBy := Newest;
      GalleryItemsHaveUniqueIds();
    }

    method SetSearchQuery(query: string)
      modifies this
      ensures searchQuery == query
      ensures selectedImage == old(selectedImage) && selectedCategory == old(selectedCategory) && sortBy == old(sortBy)
    {
      searchQuery := query;
    }

    method SelectCategory(category: string)
      modifies this
      ensures selectedCategory == category
      ensures selectedImage == old(selectedImage) && searchQuery == old(searchQuery) && sortBy == old(sortBy)
    {
      selectedCategory := category;
    }

    method SetSortBy(key: string)
      modifies this
      ensures sortBy == key
      ensures selectedImage == old(selectedImage) && searchQuery == old(searchQuery) && selectedCategory == old(selectedCategory)
    {
      sortBy := key;
    }

    /** A click on a tile opens that image in the lightbox. */
    method OpenImage(item: Item)
      requires item in Displayed()
      modifies this
      ensures selectedImage == Some(item)
      ensures searchQuery == old(searchQuery) && selectedCategory == old(selectedCategory) && sortBy == old(sortBy)
    {
      selectedImage := Some(item);
    }

    /** The close button and a click on the backdrop. */
    method CloseLightbox()
      modifies this
      ensures selectedImage == None
      ensures searchQuery == old(searchQuery) && selectedCategory == old(selectedCategory) && sortBy == old(sortBy)
    {
      selectedImage := None;
    }

    /** The previous-image button, which exists only while an image is open. */
    method ShowPrevious()
      requires selectedImage.Some?
      modifies this
      ensures selectedImage == StepBack(old(Displayed()), old(selectedImage.value))
      ensures searchQuery == old(searchQuery) && selectedCategory == old(selectedCategory) && sortBy == old(sortBy)
      ensures old(selectedImage.value in Displayed()) ==> selectedImage.Some? && selectedImage.value in Displayed()
    {
      var p := Displayed();
      var focused := selectedImage.value;
      var currentIndex := FindIndex(p, focused.id);
      if |p| == 0 {
        selectedImage := None;
      } else {
        var prevIndex := Cyclic.PrevIndex(currentIndex, |p|);
        selectedImage := At(p, prevIndex);
      }
      if focused in p {
        StepsStayInList(p, focused);
      }
    }

    /** The next-image button, which exists only while an image is open. */
    method ShowNext()
      requires selectedImage.Some?
      modifies this
      ensures selectedImage == StepForward(old(Displayed()), old(selectedImage.value))
      ensures searchQuery == old(searchQuery) && selectedCategory == old(selectedCategory) && sortBy == old(sortBy)
      ensures old(selectedImage.value in Displayed()) ==> selectedImage.Some? && selectedImage.value in Displayed()
    {
      var p := Displayed();
      var focused := selectedImage.value;
      var currentIndex := FindIndex(p, focused.id);
      if |p| == 0 {
        selectedImage := None;
      } else {
        var nextIndex := Cyclic.NextIndex(currentIndex, |p|);
        selectedImage := At(p, nextIndex);
      }
      if focused in p {
        StepsStayInList(p, focused);
      }
    }

    /** The "Reset Filters" button: category "All", empty search, newest first;
        every gallery item is shown again. The lightbox is left as it was. */
    method ResetFilters()
      modifies this
      ensures selectedCategory == AllCategories && searchQuery == "" && sortBy == Newest
      ensures selectedImage == old(selectedImage)
      ensures multiset(Displayed()) == multiset(items)
    {
      selectedCategory := AllCategories;
      searchQuery := "";
      sortBy := Newest;
      DefaultProjectionShowsAll(items, Newest);
    }
  }
}
