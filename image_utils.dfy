/** `addDataUrlPrefix`: a base64 image as a `data:` URL. */
module ImageUtils {
  import opened Js

  /** The image types the function accepts. */
  datatype ImageType = Png | Jpeg | Jpg

  function TypeName(t: ImageType): (s: string)
    ensures |s| == 3 || |s| == 4
  {
    match t
    case Png => "png"
    case Jpeg => "jpeg"
    case Jpg => "jpg"
  }

  const SchemePrefix := "data:image/"
  const EncodingTag := ";base64,"

  /** The prefix written in front of the base64 data for a type. */
  function DataUrlHeader(t: ImageType): (h: string)
    ensures |h| == |TypeName(t)| + 19
    ensures h[..11] == SchemePrefix
  {
    SchemePrefix + TypeName(t) + EncodingTag
  }

  /** "data:image/<type>;base64,<data>". */
  function AddDataUrlPrefix(base64String: string, imageType: ImageType): (url: string)
    ensures |url| == |TypeName(imageType)| + |base64String| + 19
    ensures url[..11] == SchemePrefix
    ensures url[|url| - |base64String|..] == base64String
    ensures url[11..11 + |TypeName(imageType)|] == TypeName(imageType)
  {
    var h := DataUrlHeader(imageType);
    assert (h + base64String)[..11] == h[..11];
    assert (h + base64String)[|h|..] == base64String;
    h + base64String
  }

  /** The inverse: the data of a URL with the header of the given type, if it has it. */
  function StripDataUrlPrefix(url: string, imageType: ImageType): (r: Option<string>)
    ensures r.Some? ==> DataUrlHeader(imageType) + r.value == url
  {
    var h := DataUrlHeader(imageType);
    if |url| >= |h| && url[..|h|] == h then
      assert h + url[|h|..] == url[..|h|] + url[|h|..];
      Some(url[|h|..])
    else None
  }

  lemma StripAfterAdd(base64String: string, imageType: ImageType)
    ensures StripDataUrlPrefix(AddDataUrlPrefix(base64String, imageType), imageType) == Some(base64String)
  {
    var h := DataUrlHeader(imageType);
    assert (h + base64String)[..|h|] == h;
    assert (h + base64String)[|h|..] == base64String;
  }

  /** The three characters after a prefix are the first three of what follows it. */
  lemma ThreeAfterPrefix(p: string, x: string, e: string)
    requires |x| >= 3
    ensures (p + x + e)[|p|..|p| + 3] == x[..3]
  {
    assert p + x + e == p + (x + e);
  }

  /** Characters 11 to 13 of a header are the first three letters of the type name,
      and those differ between any two types. */
  lemma HeadersDiffer(t1: ImageType, t2: ImageType)
    requires t1 != t2
    ensures DataUrlHeader(t1)[11..14] != DataUrlHeader(t2)[11..14]
  {
    ThreeAfterPrefix(SchemePrefix, TypeName(t1), EncodingTag);
    ThreeAfterPrefix(SchemePrefix, TypeName(t2), EncodingTag);
    var a, b := TypeName(t1)[..3], TypeName(t2)[..3];
    assert a[0] != b[0] || a[2] != b[2];
  }

  /** The URL determines both the data and the type. */
  lemma AddDataUrlPrefixInjective(a: string, t1: ImageType, b: string, t2: ImageType)
    requires AddDataUrlPrefix(a, t1) == AddDataUrlPrefix(b, t2)
    ensures a == b && t1 == t2
  {
    var u := AddDataUrlPrefix(a, t1);
    assert u[11..14] == DataUrlHeader(t1)[11..14] by {
      assert u == DataUrlHeader(t1) + a;
    }
    assert u[11..14] == DataUrlHeader(t2)[11..14] by {
      assert u == DataUrlHeader(t2) + b;
    }
    if t1 != t2 {
      HeadersDiffer(t1, t2);
    }
    StripAfterAdd(a, t1);
    StripAfterAdd(b, t2);
  }
}
