/** `file_type_to_bucket` of src/services/minio.py: the bucket an upload goes to. */
module Minio {
  import Builtins

  const PUBLIC_BUCKET := "htf-public"
  const PRIVATE_BUCKET := "htf"

  /** Images go to the public bucket, everything else to the private one. */
  function FileTypeToBucket(contentType: string): (bucket: string)
    ensures bucket == PUBLIC_BUCKET || bucket == PRIVATE_BUCKET
    ensures bucket == PUBLIC_BUCKET <==> |contentType| >= 5 && contentType[..5] == "image"
  {
    if Builtins.StartsWith(contentType, "image") then PUBLIC_BUCKET else PRIVATE_BUCKET
  }

  /** The prefix test is case-sensitive. */
  lemma CapitalisedImageIsPrivate()
    ensures FileTypeToBucket("Image/png") == PRIVATE_BUCKET
    ensures FileTypeToBucket("image/png") == PUBLIC_BUCKET
    ensures FileTypeToBucket("application/pdf") == PRIVATE_BUCKET
  {
    assert "Image/png"[0] != "image"[0];
    assert "image/png"[..5] == "image";
  }
}
