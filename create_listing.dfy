/**
  The create-listing page: the listing schema and the image picker, which keeps
  at most the first five selected files and shows one preview per kept file.
*/
module CreateListing {
  import opened Wrappers
  import opened Text
  import opened FormRules

  /** A selected file; only its identity matters here. */
  datatype File = File(name: string)

  datatype ListingForm = ListingForm(
    title: string,
    description: string,
    category: string,
    price: Option<int>,   // None: the number input is empty
    phone: string,
    location: string,
    images: seq<File>)

  const MaxImages: nat := 5

  /** The values of the six category radio buttons. */
  const CategoryValues: seq<string> := ["books", "electronics", "music", "phones", "home", "other"]

  const TitleRequired: string := "Title is required"
  const TitleTooShort: string := "Title must be at least 5 characters"
  const DescriptionRequired: string := "Description is required"
  const DescriptionTooShort: string := "Description must be at least 20 characters"
  const CategoryRequired: string := "Category is required"
  const PriceRequired: string := "Price is required"
  const PriceNegative: string := "Price cannot be negative"
  const PhoneRequired: string := "Phone number is required"
  const LocationRequired: string := "Location is required"
  const TooFewImages: string := "At least one image is required"
  const TooManyImages: string := "Maximum 5 images allowed"

  /** `title`: required, at least 5 characters. */
  function TitleErrors(title: string): (errs: seq<string>)
    ensures errs == [] <==> |title| >= 5
    ensures title == "" ==> errs == [TitleRequired]
  {
    if title == "" then [TitleRequired]
    else if |title| < 5 then [TitleTooShort]
    else []
  }

  /** `description`: required, at least 20 characters. */
  function DescriptionErrors(description: string): (errs: seq<string>)
    ensures errs == [] <==> |description| >= 20
    ensures description == "" ==> errs == [DescriptionRequired]
  {
    if description == "" then [DescriptionRequired]
    else if |description| < 20 then [DescriptionTooShort]
    else []
  }

  /** `category`: required. */
  function CategoryErrors(category: string): (errs: seq<string>)
    ensures errs == [] <==> category != ""
  {
    if category == "" then [CategoryRequired] else []
  }

  /** Every category the page offers passes the category rule. */
  lemma OfferedCategoriesAccepted()
    ensures forall i :: 0 <= i < |CategoryValues| ==> CategoryErrors(CategoryValues[i]) == []
  {
  }

  /** `price`: required, not negative. */
  function PriceErrors(price: Option<int>): (errs: seq<string>)
    ensures errs == [] <==> price != None && price.value >= 0
    ensures price == None ==> errs == [PriceRequired]
  {
    match price
    case None => [PriceRequired]
    case Some(p) => if p < 0 then [PriceNegative] else []
  }

  /** `phone`: required, exactly 11 digits. */
  function PhoneErrors(phone: string): (errs: seq<string>)
    ensures errs == [] <==> IsElevenDigits(phone)
  {
    RequiredPhoneErrors(phone, PhoneRequired)
  }

  /** `location`: required. */
  function LocationErrors(location: string): (errs: seq<string>)
    ensures errs == [] <==> location != ""
  {
    if location == "" then [LocationRequired] else []
  }

  /** `images`: at least one, at most five. */
  function ImagesErrors(images: seq<File>): (errs: seq<string>)
    ensures errs == [] <==> 1 <= |images| <= MaxImages
  {
    if |images| < 1 then [TooFewImages]
    else if |images| > MaxImages then [TooManyImages]
    else []
  }

  /** The listing form may be submitted: no field has an error. */
  function ListingValid(f: ListingForm): (ok: bool)
    ensures ok <==>
      && |f.title| >= 5
      && |f.description| >= 20
      && f.category != ""
      && f.price != None && f.price.value >= 0
      && IsElevenDigits(f.phone)
      && f.location != ""
      && 1 <= |f.images| <= MaxImages
  {
    && TitleErrors(f.title) == []
    && DescriptionErrors(f.description) == []
    && CategoryErrors(f.category) == []
    && PriceErrors(f.price) == []
    && PhoneErrors(f.phone) == []
    && LocationErrors(f.location) == []
    && ImagesErrors(f.images) == []
  }

  function Min(a: nat, b: nat): nat { if a < b then a else b }

  /**
    The loop of `handleImageUpload`: walk the selected files, and while fewer
    than five previews exist add the file and its object URL. The result is the
    first min(n, 5) files with their URLs, which satisfies the image rule exactly
    when at least one file was selected.
  */
  method SelectImages(files: seq<File>, createObjectUrl: File -> string) returns (previewUrls: seq<string>, images: seq<File>)
    ensures images == files[..Min(|files|, MaxImages)]
    ensures |previewUrls| == |images|
    ensures forall k :: 0 <= k < |images| ==> previewUrls[k] == createObjectUrl(images[k])
    ensures ImagesErrors(images) == [] <==> |files| >= 1
  {
    previewUrls, images := [], [];
    var i := 0;
    while i < |files|
      invariant 0 <= i <= |files|
      invariant images == files[..Min(i, MaxImages)]
      invariant |previewUrls| == |images|
      invariant forall k :: 0 <= k < |images| ==> previewUrls[k] == createObjectUrl(images[k])
    {
      if |previewUrls| < MaxImages {
        previewUrls := previewUrls + [createObjectUrl(files[i])];
        images := images + [files[i]];
      }
      i := i + 1;
    }
  }

  /** The page's preview list together with the form's `images` field. */
  class CreateListingPage {
    var previewImages: seq<string>
    var images: seq<File>

    ghost predicate Valid()
      reads this
    {
      |previewImages| == |images| <= MaxImages
    }

    constructor ()
      ensures Valid() && previewImages == [] && images == []
    {
      previewImages, images := [], [];
    }

    /**
      `handleImageUpload`: with no file list nothing changes; otherwise the new
      selection replaces the previous one rather than adding to it.
    */
    method HandleImageUpload(files: Option<seq<File>>, createObjectUrl: File -> string)
      requires Valid()
      modifies this
      ensures Valid()
      ensures files == None ==> previewImages == old(previewImages) && images == old(images)
      ensures files != None ==> images == files.value[..Min(|files.value|, MaxImages)]
      ensures files != None ==> forall k :: 0 <= k < |images| ==> previewImages[k] == createObjectUrl(images[k])
    {
      if files != None {
        var newPreviewUrls, newImages := SelectImages(files.value, createObjectUrl);
        previewImages := newPreviewUrls;
        images := newImages;
      }
    }

    /** The "Add Image" tile is offered only while fewer than five previews are shown. */
    predicate ShowAddImageTile()
      reads this
      ensures Valid() ==> (ShowAddImageTile() <==> |images| < MaxImages)
    {
      |previewImages| < MaxImages
    }
  }
}
