/** `remove_images`: dropping inline data URIs from image examples before
    they are stored. */
module Images {
  import opened Wrappers
  import opened Examples

  /** A string value that starts with "data:". */
  predicate IsDataUri(v: Value)
  {
    v.Str? && "data:" <= v.s
  }

  /** `eg.get("image", "").startswith(...)` can be evaluated: the image is
      absent or a string. */
  predicate ImageReadable(eg: Example)
  {
    "image" !in eg || eg["image"].Str?
  }

  /** eg' is eg with a data-URI image removed and the hashes set: the image
      survives exactly when it is not a data URI, and every other field is
      as it was. */
  predicate Cleaned(eg': Example, eg: Example)
  {
    && HasHashes(eg')
    && ("image" in eg' <==> "image" in eg && !IsDataUri(eg["image"]))
    && ("image" in eg' ==> eg'["image"] == eg["image"])
    && Unhashed(eg') - {"image"} == Unhashed(eg) - {"image"}
  }

  /** A run of a generator over a stream: what it yielded and the exception
      that ended it, if any. */
  datatype Yielded = Yielded(items: seq<Example>, error: Option<Error>)

  /** The loop body for one example. */
  function StripImage(eg: Example): (r: Result<Example, Error>)
    ensures r.Success? <==> ImageReadable(eg)
    ensures r.Failure? ==> r.error == ImageNotAString
  {
    if "image" !in eg then Success(eg)
    else if !eg["image"].Str? then Failure(ImageNotAString)
    else if IsDataUri(eg["image"]) then Success(eg - {"image"})
    else Success(eg)
  }

  /** The loop body, hashes included, cleans one example. */
  lemma CleanOne(h: Hasher, eg: Example)
    requires ImageReadable(eg)
    ensures Cleaned(SetHashes(h, StripImage(eg).value), eg)
  {
    var stripped := StripImage(eg).value;
    assert Unhashed(SetHashes(h, stripped)) - {"image"} == Unhashed(stripped) - {"image"};
  }

  /** Cleaning an already cleaned example changes nothing but the hashes. */
  lemma CleanedTwice(e2: Example, e1: Example, e0: Example)
    requires Cleaned(e1, e0) && Cleaned(e2, e1)
    ensures Unhashed(e2) == Unhashed(e1)
  {
    assert "image" in e1 ==> !IsDataUri(e1["image"]);
    forall k | k in Unhashed(e1)
      ensures k in Unhashed(e2) && Unhashed(e2)[k] == Unhashed(e1)[k]
    {
      if k != "image" {
        assert k in Unhashed(e1) - {"image"};
      }
    }
    forall k | k in Unhashed(e2)
      ensures k in Unhashed(e1)
    {
      if k != "image" {
        assert k in Unhashed(e2) - {"image"};
      }
    }
  }

  /** `remove_images` over a whole stream: one cleaned example per input, in
      order, until an image field that is not a string raises. */
  function RemoveImages(h: Hasher, egs: seq<Example>): (r: Yielded)
    ensures |r.items| <= |egs|
    ensures r.error.None? <==> forall i :: 0 <= i < |egs| ==> ImageReadable(egs[i])
    ensures r.error.None? ==> |r.items| == |egs|
    ensures r.error.Some? ==> r.error.value == ImageNotAString && |r.items| < |egs| && !ImageReadable(egs[|r.items|])
    ensures r.error.Some? ==> forall i :: 0 <= i < |r.items| ==> ImageReadable(egs[i])
    decreases |egs|
  {
    if egs == [] then Yielded([], None)
    else
      match StripImage(egs[0])
      case Failure(e) => Yielded([], Some(e))
      case Success(eg) =>
        var first := SetHashes(h, eg);
        var rest := RemoveImages(h, egs[1..]);
        assert forall i :: 1 <= i < |egs| ==> egs[1..][i - 1] == egs[i];
        Yielded([first] + rest.items, rest.error)
  }

  /** Output i is input i cleaned: a data-URI image removed, the hashes set,
      every other field kept. */
  lemma {:induction false} RemoveImagesCleans(h: Hasher, egs: seq<Example>, i: nat)
    requires i < |RemoveImages(h, egs).items|
    ensures Cleaned(RemoveImages(h, egs).items[i], egs[i])
    decreases |egs|
  {
    if i == 0 {
      CleanOne(h, egs[0]);
    } else {
      RemoveImagesCleans(h, egs[1..], i - 1);
    }
  }

  /** Applying `remove_images` a second time removes nothing more: it
      succeeds, and apart from the hashes every example is as the first pass
      left it. */
  lemma RemoveImagesIdempotent(h: Hasher, egs: seq<Example>)
    requires RemoveImages(h, egs).error.None?
    ensures var once := RemoveImages(h, egs).items;
            var twice := RemoveImages(h, once);
            && twice.error.None?
            && |twice.items| == |once|
            && forall i :: 0 <= i < |once| ==> Unhashed(twice.items[i]) == Unhashed(once[i])
  {
    var once := RemoveImages(h, egs).items;
    forall i | 0 <= i < |once|
      ensures ImageReadable(once[i])
    {
      RemoveImagesCleans(h, egs, i);
    }
    var twice := RemoveImages(h, once);
    forall i | 0 <= i < |once|
      ensures Unhashed(twice.items[i]) == Unhashed(once[i])
    {
      RemoveImagesCleans(h, egs, i);
      RemoveImagesCleans(h, once, i);
      CleanedTwice(twice.items[i], once[i], egs[i]);
    }
  }
}
