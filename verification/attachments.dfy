/** Attachments and the bot's image classification rule. */
module Attachments {
  import opened AsciiText

  /** What the handlers read of a Discord attachment. The content type is
      the declared MIME type; a missing (null) one is outside the model. */
  datatype Attachment = Attachment(url: string, contentType: string)

  /** The MIME strings that mark an attachment as an image, in the order the
      source lists them. */
  const ImageContentTypes: seq<string> := ["image/png", "image/jpg", "image/jpeg", "image/gif", "image/bmp"]

  /** `imageContentTypes.Any(ext => contentType.Contains(ext, OrdinalIgnoreCase))`. */
  predicate IsImage(a: Attachment)
  {
    exists ext :: ext in ImageContentTypes && ContainsIgnoreCase(a.contentType, ext)
  }

  /** An attachment is an image exactly when its content type contains,
      ignoring case, one of the five image MIME strings. */
  lemma IsImageIff(a: Attachment)
    ensures IsImage(a) <==>
      || ContainsIgnoreCase(a.contentType, "image/png")
      || ContainsIgnoreCase(a.contentType, "image/jpg")
      || ContainsIgnoreCase(a.contentType, "image/jpeg")
      || ContainsIgnoreCase(a.contentType, "image/gif")
      || ContainsIgnoreCase(a.contentType, "image/bmp")
  {
  }

  /** The same rule stated by offsets: some image MIME string occurs in the
      content type at some position, character by character ignoring case. */
  lemma IsImageSpec(a: Attachment)
    ensures IsImage(a) <==>
      exists ext, k :: ext in ImageContentTypes && MatchesAt(a.contentType, ext, k)
  {
    forall ext | ext in ImageContentTypes {
      ContainsIgnoreCaseSpec(a.contentType, ext);
    }
  }

  /** Every image content type is at least nine characters long, the length
      of the shortest image MIME string. */
  lemma IsImageMinLength(a: Attachment)
    ensures IsImage(a) ==> 9 <= |a.contentType|
  {
    forall ext | ext in ImageContentTypes {
      ContainsIgnoreCaseLength(a.contentType, ext);
    }
  }

  /** Classification ignores case: the upper-cased content type classifies
      the same as the original. */
  lemma IsImageIgnoresCase(url: string, contentType: string)
    ensures IsImage(Attachment(url, UpperString(contentType))) == IsImage(Attachment(url, contentType))
  {
    forall ext | ext in ImageContentTypes {
      ContainsIgnoreCaseUpper(contentType, ext);
    }
  }

  /** A content type carrying an image MIME string among other text, such as
      a parameter list, is still an image; the URL plays no part. */
  lemma IsImageWithParameters(url: string, ext: string, suffix: string)
    requires ext in ImageContentTypes
    ensures IsImage(Attachment(url, ext + suffix))
  {
    ContainsIgnoreCaseInfix("", ext, suffix);
    assert "" + ext + suffix == ext + suffix;
  }

  /** Concrete classifications: upper-case PNG is an image; WebP, an image
      format the list leaves out, is not. */
  lemma IsImageExamples(url: string)
    ensures IsImage(Attachment(url, "IMAGE/PNG"))
    ensures !IsImage(Attachment(url, "image/webp"))
  {
    assert ContainsIgnoreCase("IMAGE/PNG", ImageContentTypes[0]) by {
      assert StartsWithIgnoreCase("IMAGE/PNG", "image/png");
    }
    var webp := "image/webp";
    forall ext | ext in ImageContentTypes ensures !ContainsIgnoreCase(webp, ext) {
      ContainsIgnoreCaseSpec(webp, ext);
      forall k | 0 <= k && k + |ext| <= |webp| ensures !MatchesAt(webp, ext, k) {
        if k == 0 {
          assert !EqualsIgnoreCase(webp[6], ext[6]);
        } else {
          assert !EqualsIgnoreCase(webp[k], ext[0]);
        }
      }
    }
  }
}
