/** The image tag: type `img`, with one of the listed image subtypes. */
module TypeImage {
  import opened Php
  import opened Parameters
  import opened Types

  /** The SUBTYPES constant. */
  const Subtypes: seq<string> := ["jpg", "gif", "png", "tif", "bmp"]

  /** `TypeImage::create($type, $subType)`: a tag whose type defaults to
      `img` where the base class defaults to `any`. */
  function Create(kind: Value, subType: Value): (t: Tag)
    ensures t.kind == StrOf(kind)
    ensures t.subType == if IsBlank(subType) then None else Some(StrOf(subType))
  {
    WithType(Unset, kind, subType)
  }

  /** `TypeImage::create()` with its default arguments. */
  function CreateDefault(): (t: Tag)
    ensures t == Tag(TypeImage, None) && Text(t) == "img"
  {
    Create(Str(TypeImage), Null)
  }

  /** `createImage($subType)`. */
  function CreateImage(subType: Value): (t: Tag)
    ensures t.kind == TypeImage
    ensures t.subType == if IsBlank(subType) then None else Some(StrOf(subType))
  {
    Create(Str(TypeImage), subType)
  }

  /** An image tag with a listed subtype is written `img_<subtype>`, and
      reads back from that text; `gif` gives `img_gif`. */
  lemma ImageText(i: nat)
    requires i < |Subtypes|
    ensures Text(CreateImage(Str(Subtypes[i]))) == "img_" + Subtypes[i]
    ensures Hydrated(Fresh, Scalar(Str(Text(CreateImage(Str(Subtypes[i])))))) == CreateImage(Str(Subtypes[i]))
    ensures Text(CreateImage(Str("gif"))) == "img_gif"
  {
    var t := CreateImage(Str(Subtypes[i]));
    ListedText(Subtypes[i]);
    SubtypeFree(i);
    TextRoundTrip(t);
    GifText();
  }

  /** The tag of a subtype is `img_<subtype>`. */
  lemma ListedText(sub: string)
    requires sub != []
    ensures CreateImage(Str(sub)) == Tag(TypeImage, Some(sub))
    ensures Text(CreateImage(Str(sub))) == "img_" + sub
  {
    assert Text(Tag(TypeImage, Some(sub))) == TypeImage + [Separator] + sub;
  }

  lemma SubtypeFree(i: nat)
    requires i < |Subtypes|
    ensures Subtypes[i] != [] && Free(Subtypes[i], Separator) && Free(TypeImage, Separator)
  {
  }

  lemma GifText()
    ensures Text(CreateImage(Str("gif"))) == "img_gif"
  {
    ListedText("gif");
  }
}
