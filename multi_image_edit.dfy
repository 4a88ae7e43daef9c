/** Editing the metadata of several images at once (`multiImageEdit`): the
    form shows a field's value when every selected image agrees on it and
    "(multiple values)" otherwise, and fields the user changed are copied to
    every selected image. */
module MultiImageEdit {
  import opened Common

  /** The fields the form edits, in the order `updateMetadata` lists them. */
  const MetadataKeys: seq<string> := ["headline", "description_text", "archive_description", "alt_text",
                                      "byline", "copyrightholder", "usageterms", "copyrightnotice"]

  const MultipleValues: string := "(multiple values)"

  /** An image's metadata: a missing key reads as `undefined`. */
  type Meta = map<string, Field<string>>

  function Get(meta: Meta, k: string): Field<string>
  {
    if k in meta then meta[k] else Absent
  }

  /** One field of every image, in order. */
  function Column(metas: seq<Meta>, k: string): seq<Field<string>>
  {
    seq(|metas|, i requires 0 <= i < |metas| => Get(metas[i], k))
  }

  /** Every one of `values` is the first. */
  predicate Uniform(values: seq<Field<string>>)
  {
    forall i :: 0 <= i < |values| ==> values[i] == values[0]
  }

  /** What `compare(k)` gives back: the value all images share, or "" when
      they differ; so always the first image's value or "", and a single
      image's own value. */
  function Shown(metas: seq<Meta>, k: string): (r: Field<string>)
    requires |metas| > 0
    ensures r == Get(metas[0], k) || r == Present("")
    ensures |metas| == 1 ==> r == Get(metas[0], k)
  {
    if Uniform(Column(metas, k)) then Get(metas[0], k) else Present("")
  }

  /** `compare(k)` shows the value when every image has it, and "" as soon
      as one image has another. */
  lemma ShownSpec(metas: seq<Meta>, k: string)
    requires |metas| > 0
    ensures (forall i :: 0 <= i < |metas| ==> Get(metas[i], k) == Get(metas[0], k)) ==> Shown(metas, k) == Get(metas[0], k)
    ensures (exists i :: 0 <= i < |metas| && Get(metas[i], k) != Get(metas[0], k)) ==> Shown(metas, k) == Present("")
  {
    assert forall i :: 0 <= i < |metas| ==> Column(metas, k)[i] == Get(metas[i], k);
  }

  /** The images disagree on field `k`. */
  predicate Differ(metas: seq<Meta>, k: string)
    requires |metas| > 0
  {
    !Uniform(Column(metas, k))
  }

  /** The placeholders after `compare(k)`: a field the images disagree on is
      marked. */
  function Mark(placeholder: map<string, string>, differ: bool, k: string): map<string, string>
  {
    if differ then placeholder[k := MultipleValues] else placeholder
  }

  /** The form's values after `compare` ran for the first `n` fields. */
  function FormUpTo(metas: seq<Meta>, n: nat): map<string, Field<string>>
    requires |metas| > 0 && n <= |MetadataKeys|
  {
    if n == 0 then map[]
    else FormUpTo(metas, n - 1)[MetadataKeys[n - 1] := Shown(metas, MetadataKeys[n - 1])]
  }

  /** The placeholders after `compare` ran for the first `n` fields. */
  function MarkUpTo(placeholder: map<string, string>, metas: seq<Meta>, n: nat): map<string, string>
    requires |metas| > 0 && n <= |MetadataKeys|
  {
    if n == 0 then placeholder
    else Mark(MarkUpTo(placeholder, metas, n - 1), Differ(metas, MetadataKeys[n - 1]), MetadataKeys[n - 1])
  }

  lemma {:induction false} FormUpToSpec(metas: seq<Meta>, n: nat)
    requires |metas| > 0 && n <= |MetadataKeys|
    ensures forall k :: k in FormUpTo(metas, n) <==> k in MetadataKeys[..n]
    ensures forall k :: k in FormUpTo(metas, n) ==> FormUpTo(metas, n)[k] == Shown(metas, k)
  {
    if n > 0 {
      FormUpToSpec(metas, n - 1);
      assert MetadataKeys[..n] == MetadataKeys[..n - 1] + [MetadataKeys[n - 1]];
    }
  }

  /** After `updateMetadata` the form holds every edited field and nothing
      else: the value all images share, or "" when they differ. */
  lemma FormShowsSharedValues(metas: seq<Meta>)
    requires |metas| > 0
    ensures var form := FormUpTo(metas, |MetadataKeys|);
            (forall k :: k in form <==> k in MetadataKeys)
            && (forall k :: k in form && !Differ(metas, k) ==> form[k] == Get(metas[0], k))
            && (forall k :: k in form && Differ(metas, k) ==> form[k] == Present(""))
  {
    FormUpToSpec(metas, |MetadataKeys|);
    assert MetadataKeys[..|MetadataKeys|] == MetadataKeys;
  }

  lemma {:induction false} MarkUpToSpec(metas: seq<Meta>, n: nat, before: map<string, string>)
    requires |metas| > 0 && n <= |MetadataKeys|
    ensures var after := MarkUpTo(before, metas, n);
            (forall k :: k in MetadataKeys[..n] && Differ(metas, k) ==> k in after && after[k] == MultipleValues)
            && (forall k :: !(k in MetadataKeys[..n] && Differ(metas, k)) ==>
                  (k in after <==> k in before) && (k in after ==> after[k] == before[k]))
  {
    if n > 0 {
      MarkUpToSpec(metas, n - 1, before);
      var key := MetadataKeys[n - 1];
      assert MetadataKeys[..n] == MetadataKeys[..n - 1] + [key];
      assert MarkUpTo(before, metas, n) == Mark(MarkUpTo(before, metas, n - 1), Differ(metas, key), key);
    }
  }

  /** After `updateMetadata` exactly the fields the images disagree on are
      marked "(multiple values)"; every other placeholder is kept. */
  lemma PlaceholdersMarkDisagreement(metas: seq<Meta>, before: map<string, string>)
    requires |metas| > 0
    ensures var after := MarkUpTo(before, metas, |MetadataKeys|);
            (forall k :: k in MetadataKeys && Differ(metas, k) ==> k in after && after[k] == MultipleValues)
            && (forall k :: !(k in MetadataKeys && Differ(metas, k)) ==>
                  (k in after <==> k in before) && (k in after ==> after[k] == before[k]))
  {
    MarkUpToSpec(metas, |MetadataKeys|, before);
    assert MetadataKeys[..|MetadataKeys|] == MetadataKeys;
  }

  /** A single selected image shows its own values and no placeholder is
      added. */
  lemma OneImageShowsItself(meta: Meta, before: map<string, string>)
    ensures forall k :: k in MetadataKeys ==> k in FormUpTo([meta], |MetadataKeys|) && FormUpTo([meta], |MetadataKeys|)[k] == Get(meta, k)
    ensures MarkUpTo(before, [meta], |MetadataKeys|) == before
  {
    forall k | k in MetadataKeys ensures !Differ([meta], k) {
      assert |Column([meta], k)| == 1;
    }
    FormShowsSharedValues([meta]);
    PlaceholdersMarkDisagreement([meta], before);
  }

  /** `_.merge(item, _.pick(metadata, _.keys(isDirty)))`: every dirty field
      of the form overwrites the item's, except an `undefined` one. */
  function Merged(meta: Meta, metadata: Meta, dirty: set<string>): (r: Meta)
    ensures forall k :: k in dirty && k in metadata && metadata[k] != Absent ==> k in r && r[k] == metadata[k]
    ensures forall k :: !(k in dirty && k in metadata && metadata[k] != Absent) ==>
              (k in r <==> k in meta) && (k in r ==> r[k] == meta[k])
  {
    meta + map k | k in dirty && k in metadata && metadata[k] != Absent :: metadata[k]
  }

  /** Copying the dirty fields a second time changes nothing. */
  lemma MergedIdempotent(meta: Meta, metadata: Meta, dirty: set<string>)
    ensures Merged(Merged(meta, metadata, dirty), metadata, dirty) == Merged(meta, metadata, dirty)
  {
    var once := Merged(meta, metadata, dirty);
    var twice := Merged(once, metadata, dirty);
    assert forall k :: k in twice <==> k in once;
    assert forall k :: k in twice ==> twice[k] == once[k];
  }

  /** One image of the dialog. `id` stands for `_id`. */
  class Image {
    const id: string
    var unselected: bool
    var meta: Meta

    constructor (id: string, meta: Meta)
      ensures this.id == id && this.meta == meta && !unselected
    {
      this.id := id;
      this.meta := meta;
      unselected := false;
    }
  }

  /** The images' metadata, in order. */
  function Metas(images: seq<Image>): seq<Meta>
    reads images
  {
    seq(|images|, i requires 0 <= i < |images| reads images => images[i].meta)
  }

  /** The images left after `_.remove(images, res => res._id === id)`. */
  function WithoutId(images: seq<Image>, id: string): (r: seq<Image>)
    ensures forall i :: 0 <= i < |r| ==> r[i] in images && r[i].id != id
    ensures forall i :: 0 <= i < |images| && images[i].id != id ==> images[i] in r
  {
    if |images| == 0 then []
    else (if images[0].id == id then [] else [images[0]]) + WithoutId(images[1..], id)
  }

  /** `_.find(images, image => image._id === id)` finds something. */
  predicate HasId(images: seq<Image>, id: string)
  {
    exists i :: 0 <= i < |images| && images[i].id == id
  }

  /** The dialog's state. */
  class ImageEditor {
    /** The copies the changes are written to. */
    var origin: seq<Image>
    /** The selected images. */
    var images: seq<Image>
    var placeholder: map<string, string>
    /** The fields the user changed. */
    var isDirty: set<string>
    /** The form's values. */
    var metadata: Meta

    /** The copies `onBlur` writes to are separate objects, so writing one
        leaves the others as they were. */
    predicate OriginDistinct()
      reads this
    {
      forall i, j :: 0 <= i < j < |origin| ==> origin[i] != origin[j]
    }

    /** Opening the dialog on `data`: two separate copies of every image,
        and the form filled from them. */
    constructor (data: seq<(string, Meta)>)
      requires |data| > 0
      ensures OriginDistinct()
      ensures |origin| == |data| && |images| == |data|
      ensures forall i :: 0 <= i < |data| ==> origin[i].id == data[i].0 && origin[i].meta == data[i].1
      ensures forall i :: 0 <= i < |data| ==> images[i].id == data[i].0 && images[i].meta == data[i].1
      ensures forall i, j :: 0 <= i < |data| && 0 <= j < |data| ==> origin[i] != images[j]
      ensures isDirty == {}
      ensures metadata == FormUpTo(Metas(images), |MetadataKeys|)
      ensures placeholder == MarkUpTo(map[], Metas(images), |MetadataKeys|)
    {
      var o: seq<Image> := [];
      var m: seq<Image> := [];
      var i := 0;
      while i < |data|
        invariant 0 <= i <= |data| && |o| == i && |m| == i
        invariant forall j :: 0 <= j < i ==> o[j].id == data[j].0 && o[j].meta == data[j].1
        invariant forall j :: 0 <= j < i ==> m[j].id == data[j].0 && m[j].meta == data[j].1
        invariant forall j, k :: 0 <= j < k < i ==> o[j] != o[k]
        invariant forall j, k :: 0 <= j < i && 0 <= k < i ==> o[j] != m[k]
      {
        var a := new Image(data[i].0, data[i].1);
        var b := new Image(data[i].0, data[i].1);
        o := o + [a];
        m := m + [b];
        i := i + 1;
      }
      origin := o;
      images := m;
      placeholder := map[];
      isDirty := {};
      metadata := map[];
      new;
      UpdateMetadata();
    }

    /** `compare(k)`. */
    method Compare(k: string) returns (r: Field<string>)
      requires |images| > 0
      modifies this`placeholder
      ensures r == Shown(Metas(images), k)
      ensures placeholder == Mark(old(placeholder), Differ(Metas(images), k), k)
    {
      var uniqueValue := true;
      var i := 0;
      while i < |images|
        invariant 0 <= i <= |images|
        invariant uniqueValue <==> forall j :: 0 <= j < i ==> Get(images[j].meta, k) == Get(images[0].meta, k)
      {
        if Get(images[0].meta, k) != Get(images[i].meta, k) {
          uniqueValue := false;
        }
        i := i + 1;
      }
      assert uniqueValue <==> Uniform(Column(Metas(images), k)) by {
        assert forall j :: 0 <= j < |images| ==> Column(Metas(images), k)[j] == Get(images[j].meta, k);
      }
      if uniqueValue {
        return Get(images[0].meta, k);
      }
      placeholder := placeholder[k := MultipleValues];
      r := Present("");
    }

    /** `updateMetadata()`: `compare` for each field in turn, then the form
        takes the results. */
    method UpdateMetadata()
      requires |images| > 0
      modifies this`placeholder, this`metadata
      ensures metadata == FormUpTo(Metas(images), |MetadataKeys|)
      ensures placeholder == MarkUpTo(old(placeholder), Metas(images), |MetadataKeys|)
    {
      ghost var metas := Metas(images);
      var values: Meta := map[];
      var i := 0;
      while i < |MetadataKeys|
        invariant 0 <= i <= |MetadataKeys|
        invariant Metas(images) == metas
        invariant values == FormUpTo(metas, i)
        invariant placeholder == MarkUpTo(old(placeholder), metas, i)
      {
        var k := MetadataKeys[i];
        var r := Compare(k);
        values := values[k := r];
        i := i + 1;
      }
      metadata := values;
    }

    /** `selectImage(image)`: the image's selection flips, it leaves or
        joins the selected images, and the form is filled again. `ok` is
        false when no image is left selected, where the source throws
        before the form changes. */
    method SelectImage(image: Image) returns (ok: bool)
      modifies this`images, this`placeholder, this`metadata, image`unselected
      ensures image.unselected == !old(image.unselected)
      ensures image.unselected ==> images == WithoutId(old(images), image.id)
      ensures !image.unselected ==> images == old(images) + [image]
      ensures ok <==> |images| > 0
      ensures ok ==> metadata == FormUpTo(Metas(images), |MetadataKeys|)
                     && placeholder == MarkUpTo(old(placeholder), Metas(images), |MetadataKeys|)
      ensures !ok ==> metadata == old(metadata) && placeholder == old(placeholder)
    {
      image.unselected := !image.unselected;
      if image.unselected {
        images := WithoutId(images, image.id);
      } else {
        images := images + [image];
      }
      if |images| == 0 {
        return false;
      }
      UpdateMetadata();
      ok := true;
    }

    /** `onBlur()`: every copy whose image is still selected takes the
        dirty fields of the form. */
    method OnBlur()
      requires OriginDistinct()
      modifies set i | 0 <= i < |origin| :: origin[i]
      ensures forall i :: 0 <= i < |origin| ==>
                origin[i].meta == if HasId(images, origin[i].id) then Merged(old(origin[i].meta), metadata, isDirty)
                                  else old(origin[i].meta)
    {
      var i := 0;
      while i < |origin|
        invariant 0 <= i <= |origin|
        invariant forall j :: 0 <= j < i ==>
                    origin[j].meta == if HasId(images, origin[j].id) then Merged(old(origin[j].meta), metadata, isDirty)
                                      else old(origin[j].meta)
        invariant forall j :: i <= j < |origin| ==> origin[j].meta == old(origin[j].meta)
      {
        var item := origin[i];
        if exists j :: 0 <= j < |images| && images[j].id == item.id {
          item.meta := Merged(item.meta, metadata, isDirty);
        }
        i := i + 1;
      }
    }
  }
}
