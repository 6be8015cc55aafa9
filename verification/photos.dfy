/**
 * The photo gallery: the library of photos, the all/favourites view, the
 * lightbox with its open photo and previous/next stepping, favouriting,
 * deleting and uploading. An upload arrives with the object URL and the
 * fresh id the browser would give it; dates are timestamps.
 */
module Photos {
  import opened Options
  import opened Strings
  import opened Lists

  datatype Photo = Photo(id: string, name: string, url: string, favorite: bool, dateAdded: nat)

  datatype ViewMode = AllPhotos | FavoritePhotos

  datatype GridSize = Small | Large

  /** A chosen file: its name and MIME type, with the object URL and fresh id it is given. */
  datatype Upload = Upload(name: string, mimeType: string, objectUrl: string, freshId: string)

  function PhotoId(p: Photo): string { p.id }

  predicate IsImage(f: Upload) { StartsWith(f.mimeType, "image/") }

  /** The grid's list: every photo, or the favourites, in library order. */
  function Shown(photos: seq<Photo>, mode: ViewMode): (r: seq<Photo>)
    ensures mode == AllPhotos ==> r == photos
    ensures mode == FavoritePhotos ==> forall p :: p in r <==> p in photos && p.favorite
    ensures |r| <= |photos|
  {
    if mode == FavoritePhotos then Filter(photos, (p: Photo) => p.favorite) else photos
  }

  /** Distinct ids in the library stay distinct in the grid. */
  lemma ShownUnique(photos: seq<Photo>, mode: ViewMode)
    requires UniqueKeys(photos, PhotoId)
    ensures UniqueKeys(Shown(photos, mode), PhotoId)
  {
    if mode == FavoritePhotos {
      FilterKeepsUnique(photos, PhotoId, (p: Photo) => p.favorite);
    }
  }

  /** The photo a favourite toggle leaves: the flag flipped, nothing else. */
  function Flipped(p: Photo): (r: Photo)
    ensures r.id == p.id && r.favorite == !p.favorite && r.(favorite := p.favorite) == p
  {
    p.(favorite := !p.favorite)
  }

  /** The photos an upload adds, in the order the files were chosen: one per image file, not favourite. */
  function Added(files: seq<Upload>, now: nat): (r: seq<Photo>)
    ensures forall p :: p in r ==> !p.favorite && p.dateAdded == now
  {
    if files == [] then []
    else
      var f := files[0];
      var rest := Added(files[1..], now);
      if IsImage(f) then [Photo(f.freshId, f.name, f.objectUrl, false, now)] + rest else rest
  }

  /** An upload adds exactly one photo per image file. */
  lemma {:induction false} AddedCount(files: seq<Upload>, now: nat)
    ensures |Added(files, now)| == CountWhere(files, IsImage)
  {
    if files != [] {
      AddedCount(files[1..], now);
    }
  }

  /** Each added photo carries the id, name and URL of an image file of the choice. */
  lemma {:induction false} AddedFromImages(files: seq<Upload>, now: nat)
    ensures forall p :: p in Added(files, now) ==>
      exists f :: f in files && IsImage(f) && p.id == f.freshId && p.name == f.name && p.url == f.objectUrl
  {
    if files != [] {
      AddedFromImages(files[1..], now);
      forall p | p in Added(files[1..], now)
        ensures exists f :: f in files && IsImage(f) && p.id == f.freshId && p.name == f.name && p.url == f.objectUrl
      {
        var f :| f in files[1..] && IsImage(f) && p.id == f.freshId && p.name == f.name && p.url == f.objectUrl;
        assert f in files;
      }
    }
  }

  function Reversed<T>(s: seq<T>): (r: seq<T>)
    ensures |r| == |s|
    ensures forall k :: 0 <= k < |s| ==> r[k] == s[|s| - 1 - k]
  {
    if s == [] then [] else Reversed(s[1..]) + [s[0]]
  }

  lemma ReversedSnoc<T>(s: seq<T>, x: T)
    ensures Reversed(s + [x]) == [x] + Reversed(s)
  {
    var l, r := Reversed(s + [x]), [x] + Reversed(s);
    forall k | 0 <= k < |l| ensures l[k] == r[k] {
      if k > 0 {
        assert l[k] == (s + [x])[|s| - k];
      }
    }
  }

  /** One more file at the end of the choice: its photo, if it is an image, goes in front of the rest. */
  lemma UploadStep(files: seq<Upload>, f: Upload, now: nat)
    ensures Reversed(Added(files + [f], now)) ==
      (if IsImage(f) then [Photo(f.freshId, f.name, f.objectUrl, false, now)] else []) + Reversed(Added(files, now))
  {
    AddedAppend(files, f, now);
    if IsImage(f) {
      ReversedSnoc(Added(files, now), Photo(f.freshId, f.name, f.objectUrl, false, now));
    } else {
      assert Added(files + [f], now) == Added(files, now);
    }
  }

  /** A photo whose id the library does not use can go in front without repeating an id. */
  lemma PrependUnique(p: Photo, photos: seq<Photo>)
    requires UniqueKeys(photos, PhotoId) && forall q :: q in photos ==> q.id != p.id
    ensures UniqueKeys([p] + photos, PhotoId)
  {
    var r := [p] + photos;
    forall i, j | 0 <= i < j < |r|
      ensures r[i].id != r[j].id
    {
      assert r[j] == photos[j - 1];
      if i > 0 {
        assert r[i] == photos[i - 1];
      }
    }
  }

  /** With distinct, unused fresh ids, an upload repeats no id. */
  lemma {:induction false} UploadKeepsUnique(files: seq<Upload>, now: nat, photos: seq<Photo>)
    requires UniqueKeys(photos, PhotoId)
    requires forall j, k :: 0 <= j < k < |files| ==> files[j].freshId != files[k].freshId
    requires forall j, p :: 0 <= j < |files| && p in photos ==> files[j].freshId != p.id
    ensures UniqueKeys(Reversed(Added(files, now)) + photos, PhotoId)
    decreases |files|
  {
    if files == [] {
      assert Reversed(Added(files, now)) + photos == photos;
    } else {
      var init, f := files[..|files| - 1], files[|files| - 1];
      assert files == init + [f];
      assert forall j :: 0 <= j < |init| ==> init[j] == files[j];
      UploadKeepsUnique(init, now, photos);
      UploadStep(init, f, now);
      if IsImage(f) {
        var p := Photo(f.freshId, f.name, f.objectUrl, false, now);
        var before := Reversed(Added(init, now));
        LastIdUnused(init, f.freshId, now, photos);
        PrependUnique(p, before + photos);
        assert Reversed(Added(files, now)) == [p] + before;
        assert [p] + (before + photos) == ([p] + before) + photos;
      } else {
        assert Reversed(Added(files, now)) == Reversed(Added(init, now));
      }
    }
  }

  /** An id no earlier file and no photo carries is carried by nothing the earlier files added. */
  lemma LastIdUnused(init: seq<Upload>, id: string, now: nat, photos: seq<Photo>)
    requires forall m :: 0 <= m < |init| ==> init[m].freshId != id
    requires forall q :: q in photos ==> q.id != id
    ensures forall q :: q in Reversed(Added(init, now)) + photos ==> q.id != id
  {
    var before := Reversed(Added(init, now));
    AddedFromImages(init, now);
    forall q | q in before
      ensures q.id != id
    {
      var k :| 0 <= k < |before| && before[k] == q;
      assert q in Added(init, now);
      var g :| g in init && IsImage(g) && q.id == g.freshId;
      var m :| 0 <= m < |init| && init[m] == g;
    }
  }

  /** Adding one more file at the end of the choice adds its photo, if any, after the others. */
  lemma {:induction false} AddedAppend(files: seq<Upload>, f: Upload, now: nat)
    ensures Added(files + [f], now) == Added(files, now) + (if IsImage(f) then [Photo(f.freshId, f.name, f.objectUrl, false, now)] else [])
  {
    if files == [] {
      assert [f][1..] == [];
    } else {
      assert (files + [f])[1..] == files[1..] + [f];
      AddedAppend(files[1..], f, now);
    }
  }

  class Gallery {
    var photos: seq<Photo>
    var viewMode: ViewMode
    var gridSize: GridSize
    var selectedPhoto: Option<Photo>
    var lightboxOpen: bool

    /** Photo ids are distinct, and the open photo is a photo of the library. */
    ghost predicate Valid()
      reads this`photos, this`selectedPhoto
    {
      UniqueKeys(photos, PhotoId) && (selectedPhoto.Some? ==> selectedPhoto.value in photos)
    }

    constructor (initial: seq<Photo>)
      requires UniqueKeys(initial, PhotoId)
      ensures Valid()
      ensures photos == initial && viewMode == AllPhotos && gridSize == Large
      ensures selectedPhoto.None? && !lightboxOpen
    {
      photos := initial;
      viewMode := AllPhotos;
      gridSize := Large;
      selectedPhoto := None;
      lightboxOpen := false;
    }

    function FilteredPhotos(): (r: seq<Photo>)
      reads this`photos, this`viewMode
      ensures r == Shown(photos, viewMode)
    {
      Shown(photos, viewMode)
    }

    /** The open photo's position in the grid's list; -1 when none is open or it is not listed. */
    function CurrentIndex(): (r: int)
      reads this`photos, this`viewMode, this`selectedPhoto
      ensures -1 <= r < |FilteredPhotos()|
      ensures r >= 0 ==> selectedPhoto.Some? && FilteredPhotos()[r].id == selectedPhoto.value.id
      ensures r == -1 <==> selectedPhoto.None? || forall p :: p in FilteredPhotos() ==> p.id != selectedPhoto.value.id
    {
      if selectedPhoto.None? then -1 else FindIndex(FilteredPhotos(), PhotoId, selectedPhoto.value.id)
    }

    method SetViewMode(mode: ViewMode)
      modifies this`viewMode
      ensures viewMode == mode
    {
      viewMode := mode;
    }

    method ToggleGridSize()
      modifies this`gridSize
      ensures gridSize == if old(gridSize) == Large then Small else Large
    {
      gridSize := if gridSize == Large then Small else Large;
    }

    /** Clicking a photo of the grid opens it in the lightbox, at its own position. */
    method PhotoClick(k: nat)
      requires Valid() && k < |FilteredPhotos()|
      modifies this`selectedPhoto, this`lightboxOpen
      ensures Valid() && lightboxOpen
      ensures selectedPhoto == Some(old(FilteredPhotos())[k]) && CurrentIndex() == k
    {
      ShownUnique(photos, viewMode);
      FindIndexUnique(FilteredPhotos(), PhotoId, k);
      selectedPhoto := Some(FilteredPhotos()[k]);
      lightboxOpen := true;
    }

    method CloseLightbox()
      modifies this`lightboxOpen
      ensures !lightboxOpen
    {
      lightboxOpen := false;
    }

    /** Previous: one step back in the grid's list; nothing at its start. */
    method Previous()
      requires Valid()
      modifies this`selectedPhoto
      ensures Valid()
      ensures old(CurrentIndex()) > 0 ==> selectedPhoto == Some(FilteredPhotos()[old(CurrentIndex()) - 1]) && CurrentIndex() == old(CurrentIndex()) - 1
      ensures old(CurrentIndex()) <= 0 ==> selectedPhoto == old(selectedPhoto)
    {
      var i := CurrentIndex();
      if i > 0 {
        Select(i - 1);
      }
    }

    /**
     * Next: one step on in the grid's list; nothing at its end. An open photo
     * the list does not show (index -1) steps to the list's first photo.
     */
    method Next()
      requires Valid()
      modifies this`selectedPhoto
      ensures Valid()
      ensures old(CurrentIndex()) < |FilteredPhotos()| - 1 ==>
        selectedPhoto == Some(FilteredPhotos()[old(CurrentIndex()) + 1]) && CurrentIndex() == old(CurrentIndex()) + 1
      ensures old(CurrentIndex()) >= |FilteredPhotos()| - 1 ==> selectedPhoto == old(selectedPhoto)
    {
      var i := CurrentIndex();
      if i < |FilteredPhotos()| - 1 {
        Select(i + 1);
      }
    }

    /** Opening the photo at a position of the grid's list puts the current index there. */
    method Select(k: nat)
      requires Valid() && k < |FilteredPhotos()|
      modifies this`selectedPhoto
      ensures Valid()
      ensures selectedPhoto == Some(FilteredPhotos()[k]) && CurrentIndex() == k
    {
      ShownUnique(photos, viewMode);
      FindIndexUnique(FilteredPhotos(), PhotoId, k);
      selectedPhoto := Some(FilteredPhotos()[k]);
    }

    /** Favouriting flips the matching photo in the library, and the open copy when that is the photo. */
    method ToggleFavorite(id: string)
      requires Valid()
      modifies this`photos, this`selectedPhoto
      ensures Valid()
      ensures photos == MapWhere(old(photos), (p: Photo) => p.id == id, Flipped)
      ensures old(selectedPhoto).Some? && old(selectedPhoto).value.id == id ==> selectedPhoto == Some(Flipped(old(selectedPhoto).value))
      ensures !(old(selectedPhoto).Some? && old(selectedPhoto).value.id == id) ==> selectedPhoto == old(selectedPhoto)
    {
      var before := photos;
      photos := MapWhere(photos, (p: Photo) => p.id == id, Flipped);
      assert UniqueKeys(photos, PhotoId) by {
        forall i, j | 0 <= i < j < |photos|
          ensures photos[i].id != photos[j].id
        {
          assert photos[i].id == before[i].id && photos[j].id == before[j].id;
        }
      }
      if selectedPhoto.Some? && selectedPhoto.value.id == id {
        var k :| 0 <= k < |before| && before[k] == selectedPhoto.value;
        assert photos[k] == Flipped(before[k]);
        selectedPhoto := Some(Flipped(selectedPhoto.value));
      } else if selectedPhoto.Some? {
        var k :| 0 <= k < |before| && before[k] == selectedPhoto.value;
        assert photos[k] == before[k];
      }
    }

    /** Deleting removes the matching photo; if it was open, the lightbox closes and nothing stays selected. */
    method DeletePhoto(id: string)
      requires Valid()
      modifies this`photos, this`selectedPhoto, this`lightboxOpen
      ensures Valid()
      ensures photos == Filter(old(photos), (p: Photo) => p.id != id)
      ensures forall p :: p in photos <==> p in old(photos) && p.id != id
      ensures old(selectedPhoto).Some? && old(selectedPhoto).value.id == id ==> selectedPhoto.None? && !lightboxOpen
      ensures !(old(selectedPhoto).Some? && old(selectedPhoto).value.id == id) ==>
        selectedPhoto == old(selectedPhoto) && lightboxOpen == old(lightboxOpen)
    {
      FilterKeepsUnique(photos, PhotoId, (p: Photo) => p.id != id);
      photos := Filter(photos, (p: Photo) => p.id != id);
      if selectedPhoto.Some? && selectedPhoto.value.id == id {
        lightboxOpen := false;
        selectedPhoto := None;
      }
    }

    /**
     * Upload: each image file, in the order chosen, is put in front of the
     * library, so the last one chosen ends up first; other files are skipped.
     * The fresh ids are distinct and unused, as generated ids are.
     */
    method UploadFiles(files: seq<Upload>, now: nat)
      requires Valid()
      requires forall j, k :: 0 <= j < k < |files| ==> files[j].freshId != files[k].freshId
      requires forall j, p :: 0 <= j < |files| && p in photos ==> files[j].freshId != p.id
      modifies this`photos
      ensures Valid()
      ensures photos == Reversed(Added(files, now)) + old(photos)
      ensures |photos| == |old(photos)| + CountWhere(files, IsImage)
    {
      PrependImages(files, now);
      UploadKeepsUnique(files, now, old(photos));
    }

    /** The upload loop: one photo in front for each image file. */
    method PrependImages(files: seq<Upload>, now: nat)
      modifies this`photos
      ensures photos == Reversed(Added(files, now)) + old(photos)
      ensures |photos| == |old(photos)| + CountWhere(files, IsImage)
    {
      var i := 0;
      while i < |files|
        invariant 0 <= i <= |files|
        invariant photos == Reversed(Added(files[..i], now)) + old(photos)
      {
        var f := files[i];
        assert files[..i + 1] == files[..i] + [f];
        UploadStep(files[..i], f, now);
        if IsImage(f) {
          photos := [Photo(f.freshId, f.name, f.objectUrl, false, now)] + photos;
        }
        i := i + 1;
      }
      assert files[..i] == files;
      AddedCount(files, now);
    }
  }
}
