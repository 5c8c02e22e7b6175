/**
 * The image upload step: a selection (picked or dropped) is accepted only
 * when every file is an image, and is then appended to the list; entries can
 * be removed one at a time.
 */
module ImageUploader {
  import opened Entities
  import opened JsStrings
  import AppState

  const NotAnImageError := "Solo se permiten archivos de imagen"
  const NoImagesError := "Por favor, carga al menos una imagen antes de continuar."

  /** `file.type.startsWith('image/')`. */
  predicate IsImageType(mimeType: string) {
    StartsWith(mimeType, "image/")
  }

  /** `files.filter(file => !file.type.startsWith('image/'))`. */
  function InvalidFiles(files: seq<FileRef>): seq<FileRef> {
    if |files| == 0 then []
    else (if IsImageType(files[0].mimeType) then [] else [files[0]]) + InvalidFiles(files[1..])
  }

  /** The filter finds nothing exactly when every file is an image. */
  lemma {:induction false} NoInvalidFilesIffAllImages(files: seq<FileRef>)
    ensures |InvalidFiles(files)| == 0 <==> forall f :: f in files ==> IsImageType(f.mimeType)
  {
    if |files| > 0 {
      NoInvalidFilesIffAllImages(files[1..]);
      assert forall f :: f in files ==> f == files[0] || f in files[1..];
    }
  }

  /** `files.map(file => ({ file, name: file.name }))`. */
  function NewEntries(files: seq<FileRef>): (entries: seq<UploadedImage>)
    ensures |entries| == |files|
    ensures forall i :: 0 <= i < |files| ==> entries[i].file == files[i] && entries[i].name == files[i].name
  {
    seq(|files|, i requires 0 <= i < |files| => UploadedImage(files[i], files[i].name))
  }

  /** `[...images]` followed by `splice(index, 1)`. */
  function RemoveAt<T>(s: seq<T>, index: nat): (r: seq<T>)
    requires index < |s|
    ensures |r| == |s| - 1
    ensures forall j :: 0 <= j < index ==> r[j] == s[j]
    ensures forall j :: index <= j < |r| ==> r[j] == s[j + 1]
  {
    s[..index] + s[index + 1..]
  }

  /** Removing an entry and putting it back at its place restores the list. */
  lemma RemoveAtInverse<T>(s: seq<T>, index: nat)
    requires index < |s|
    ensures RemoveAt(s, index)[..index] + [s[index]] + RemoveAt(s, index)[index..] == s
  {
  }

  class Uploader {
    var error: string

    constructor ()
      ensures error == ""
    {
      error := "";
    }

    /** The rule both `handleFileChange` and `handleDrop` apply to a selection. */
    method AddSelection(app: AppState.App, files: seq<FileRef>)
      modifies this`error, app`images
      ensures (exists f :: f in files && !IsImageType(f.mimeType)) ==>
        error == NotAnImageError && app.images == old(app.images)
      ensures (forall f :: f in files ==> IsImageType(f.mimeType)) ==>
        error == "" && app.images == old(app.images) + NewEntries(files)
    {
      NoInvalidFilesIffAllImages(files);
      if |InvalidFiles(files)| > 0 {
        error := NotAnImageError;
        return;
      }
      error := "";
      app.images := app.images + NewEntries(files);
    }

    method HandleFileChange(app: AppState.App, files: seq<FileRef>)
      modifies this`error, app`images
      ensures (exists f :: f in files && !IsImageType(f.mimeType)) ==>
        error == NotAnImageError && app.images == old(app.images)
      ensures (forall f :: f in files ==> IsImageType(f.mimeType)) ==>
        error == "" && app.images == old(app.images) + NewEntries(files)
    {
      AddSelection(app, files);
    }

    method HandleDrop(app: AppState.App, files: seq<FileRef>)
      modifies this`error, app`images
      ensures (exists f :: f in files && !IsImageType(f.mimeType)) ==>
        error == NotAnImageError && app.images == old(app.images)
      ensures (forall f :: f in files ==> IsImageType(f.mimeType)) ==>
        error == "" && app.images == old(app.images) + NewEntries(files)
    {
      AddSelection(app, files);
    }

    method HandleRemoveImage(app: AppState.App, index: nat)
      requires index < |app.images|
      modifies app`images
      ensures app.images == RemoveAt(old(app.images), index)
    {
      app.images := RemoveAt(app.images, index);
    }

    method HandleContinue(app: AppState.App)
      modifies this`error, app`currentStep
      ensures |app.images| == 0 ==> error == NoImagesError && app.currentStep == old(app.currentStep)
      ensures |app.images| > 0 ==> error == old(error) && app.currentStep == AppState.ClampedNext(old(app.currentStep))
    {
      if |app.images| == 0 {
        error := NoImagesError;
        return;
      }
      app.NextStep();
    }
  }
}
