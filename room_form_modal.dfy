/**
 * The administrator's dialog that creates or edits a room: its fields, the
 * facility switches, the capacity and floor inputs, the image guard applied
 * before an upload, and the save that follows.
 */
module RoomFormModal {
  import opened Wrappers
  import opened JsNumbers
  import opened Database
  import opened JsArrays
  import opened ImageUtils

  // ------------------------------------------------------------ facilities

  const FACILITIES_OPTIONS: seq<string> := ["TV", "HDMI", "AC", "Projetor", "Sistema de Som", "Quadro Branco"]

  /**
   * `handleFacilityToggle`: a facility that is present is removed, every
   * occurrence of it; an absent one is appended.
   */
  function ToggleFacility(prev: seq<string>, facility: string): (r: seq<string>)
    ensures facility in r <==> facility !in prev
    ensures forall g :: g != facility ==> (g in r <==> g in prev)
  {
    if facility in prev then Filter(prev, (f: string) => f != facility) else prev + [facility]
  }

  /**
   * Removing keeps the other facilities in their order; appending keeps the
   * whole list as it was in front of the new one.
   */
  lemma ToggleKeepsOrder(prev: seq<string>, facility: string)
    ensures facility in prev ==> IsSubsequence(ToggleFacility(prev, facility), prev)
    ensures facility !in prev ==> ToggleFacility(prev, facility)[..|prev|] == prev
  {
    if facility in prev {
      FilterIsSubsequence(prev, (f: string) => f != facility);
    }
  }

  /** Switching an absent facility on and off again restores the list. */
  lemma ToggleTwiceFromAbsent(prev: seq<string>, facility: string)
    requires facility !in prev
    ensures ToggleFacility(ToggleFacility(prev, facility), facility) == prev
  {
    assert facility in prev + [facility];
    FilterRejectedLast(prev, facility, (f: string) => f != facility);
    FilterKeepsAll(prev, (f: string) => f != facility);
  }

  /** Switching a present facility off and on again moves it to the end. */
  lemma ToggleTwiceFromPresent(prev: seq<string>, facility: string)
    requires facility in prev
    ensures ToggleFacility(ToggleFacility(prev, facility), facility) ==
      Filter(prev, (f: string) => f != facility) + [facility]
  {
  }

  lemma {:induction false} FilterRejectedLast<T(!new)>(s: seq<T>, x: T, p: T -> bool)
    requires !p(x)
    ensures Filter(s + [x], p) == Filter(s, p)
  {
    if s == [] {
      assert [x][1..] == [];
    } else {
      assert (s + [x])[0] == s[0] && (s + [x])[1..] == s[1..] + [x];
      FilterRejectedLast(s[1..], x, p);
    }
  }

  lemma {:induction false} FilterKeepsAll<T(!new)>(s: seq<T>, p: T -> bool)
    requires forall i :: 0 <= i < |s| ==> p(s[i])
    ensures Filter(s, p) == s
  {
    if s != [] {
      FilterKeepsAll(s[1..], p);
    }
  }

  // ----------------------------------------------------------------- inputs

  /** The capacity input: `parseInt(value) || 1`. */
  function CapacityFromInput(value: string): (r: int)
    ensures ParseInt(value).Some? && ParseInt(value).value != 0 ==> r == ParseInt(value).value
    ensures ParseInt(value).None? || ParseInt(value) == Some(0) ==> r == 1
  {
    ParseIntOr(value, 1)
  }

  /**
   * Typing a number shows it back, zero and unparsable text become 1;
   * negative numbers are kept, as the handler does not enforce the minimum.
   */
  lemma CapacityInputExamples(n: int)
    ensures n != 0 ==> CapacityFromInput(IntToString(n)) == n
    ensures CapacityFromInput(IntToString(0)) == 1
    ensures CapacityFromInput("") == 1
  {
    ParseIntOrOfIntToString(n, 1);
    ParseIntOrOfIntToString(0, 1);
    assert LeadingDigits(TrimStart("")) == "";
  }

  /** The floor select: `parseInt(value)`; `None` is NaN. */
  function FloorFromSelect(value: string): Option<int>
  {
    ParseInt(value)
  }

  /** Each offered floor option reads back as its floor. */
  lemma FloorOptionsParse()
    ensures FloorFromSelect("0") == Some(0) && FloorFromSelect("1") == Some(1) && FloorFromSelect("2") == Some(2)
  {
    ParseIntOfIntToString(0);
    ParseIntOfIntToString(1);
    ParseIntOfIntToString(2);
    assert IntToString(0) == "0" && IntToString(1) == "1" && IntToString(2) == "2";
  }

  // ------------------------------------------------------------ image guard

  const MAX_FILE_SIZE: int := 5 * 1024 * 1024
  const ALLOWED_TYPES: seq<string> := ["image/jpeg", "image/jpg", "image/png", "image/webp"]

  datatype GuardResult = TooLarge | TypeNotAllowed | Accepted

  /** The guard before an upload: size above 5 MiB first, then the four types. */
  function ImageGuard(file: ImageFile): (r: GuardResult)
    ensures r == TooLarge <==> file.size > MAX_FILE_SIZE
    ensures r == TypeNotAllowed <==> file.size <= MAX_FILE_SIZE && file.mimeType !in ALLOWED_TYPES
    ensures r == Accepted <==> file.size <= MAX_FILE_SIZE && file.mimeType in ALLOWED_TYPES
  {
    if file.size > MAX_FILE_SIZE then TooLarge
    else if file.mimeType !in ALLOWED_TYPES then TypeNotAllowed
    else Accepted
  }

  /**
   * The guard is looser than `validateImageFile`: every file that check
   * accepts passes the guard, but a 3 MiB JPEG and an "image/jpg" file pass
   * the guard only.
   */
  lemma GuardIsLooserThanValidator(file: ImageFile)
    ensures ValidateImageFile(file).valid ==> ImageGuard(file) == Accepted
    ensures ImageGuard(ImageFile(file.name, "image/jpeg", 3 * 1024 * 1024)) == Accepted
    ensures !ValidateImageFile(ImageFile(file.name, "image/jpeg", 3 * 1024 * 1024)).valid
    ensures ImageGuard(ImageFile(file.name, "image/jpg", 1024)) == Accepted
    ensures !ValidateImageFile(ImageFile(file.name, "image/jpg", 1024)).valid
  {
    assert "image/jpeg" in ALLOWED_TYPES && "image/jpg" in ALLOWED_TYPES;
    JpgAliasIsRefused(file.name, 1024);
    assert forall t :: t in VALID_TYPES ==> t in ALLOWED_TYPES;
  }

  // ------------------------------------------------------------------ save

  /** The values the dialog writes to the rooms table. */
  datatype RoomFields = RoomFields(
    name: string, floor: Option<int>, capacity: int, facilities: seq<string>, status: RoomStatus)

  /** The empty form `resetForm` produces. */
  const EMPTY_FIELDS: RoomFields := RoomFields("", Some(0), 1, [], Ativo)

  /** What one submit ends in. */
  datatype SaveOutcome =
    | ImageTooLarge
    | ImageTypeNotAllowed
    | UploadFailed
    | SaveFailed
    | Saved(fields: RoomFields, imageUrl: Option<string>, updatedId: Option<string>)

  /** `room?.image_url || null`: the edited room's image, an empty URL counting as none. */
  function KeptImageUrl(room: Option<Room>): (r: Option<string>)
    ensures r.Some? <==> room.Some? && room.value.imageUrl.Some? && room.value.imageUrl.value != ""
    ensures r.Some? ==> r == room.value.imageUrl
  {
    if room.Some? && room.value.imageUrl.Some? && room.value.imageUrl.value != "" then room.value.imageUrl
    else None
  }

  /**
   * `handleSubmit`, given the room being edited (`None` creates one), the
   * form's values, the chosen file, whether the upload succeeds and the public
   * URL it gives, and whether the update or insert succeeds.
   */
  function SaveRoom(
    room: Option<Room>, fields: RoomFields, imageFile: Option<ImageFile>,
    uploadOk: bool, publicUrl: string, saveOk: bool): (r: SaveOutcome)
    ensures imageFile.None? ==> !r.ImageTooLarge? && !r.ImageTypeNotAllowed? && !r.UploadFailed?
    ensures r.Saved? ==> r.fields == fields && saveOk
    ensures r.Saved? ==> r.updatedId == (if room.Some? then Some(room.value.id) else None)
    ensures r.Saved? ==> r.imageUrl == (if imageFile.Some? then Some(publicUrl) else KeptImageUrl(room))
    ensures imageFile.Some? && ImageGuard(imageFile.value) == TooLarge ==> r == ImageTooLarge
    ensures imageFile.Some? && ImageGuard(imageFile.value) == TypeNotAllowed ==> r == ImageTypeNotAllowed
    ensures imageFile.Some? && ImageGuard(imageFile.value) == Accepted && !uploadOk ==> r == UploadFailed
    ensures r.Saved? || r.SaveFailed? ==> imageFile.None? || (ImageGuard(imageFile.value) == Accepted && uploadOk)
    ensures (imageFile.None? || (ImageGuard(imageFile.value) == Accepted && uploadOk)) && saveOk ==> r.Saved?
    ensures (imageFile.None? || (ImageGuard(imageFile.value) == Accepted && uploadOk)) && !saveOk ==> r == SaveFailed
  {
    if imageFile.Some? && ImageGuard(imageFile.value) == TooLarge then ImageTooLarge
    else if imageFile.Some? && ImageGuard(imageFile.value) == TypeNotAllowed then ImageTypeNotAllowed
    else if imageFile.Some? && !uploadOk then UploadFailed
    else
      var imageUrl := if imageFile.Some? then Some(publicUrl) else KeptImageUrl(room);
      if !saveOk then SaveFailed
      else Saved(fields, imageUrl, if room.Some? then Some(room.value.id) else None)
  }

  // ----------------------------------------------------------------- state

  /** The dialog's state. */
  class RoomFormModal {
    var name: string
    var floor: Option<int>
    var capacity: int
    var facilities: seq<string>
    var status: RoomStatus
    var imageFile: Option<ImageFile>
    var loading: bool

    constructor()
      ensures Fields() == EMPTY_FIELDS && imageFile.None? && !loading
    {
      name, floor, capacity, facilities, status := "", Some(0), 1, [], Ativo;
      imageFile := None;
      loading := false;
    }

    function Fields(): RoomFields
      reads this
    {
      RoomFields(name, floor, capacity, facilities, status)
    }

    /** `resetForm`: the empty form, and no file. */
    method ResetForm()
      modifies this
      ensures Fields() == EMPTY_FIELDS && imageFile.None?
      ensures loading == old(loading)
    {
      name, floor, capacity, facilities, status := "", Some(0), 1, [], Ativo;
      imageFile := None;
    }

    /**
     * The effect run when the dialog opens: an edited room's values, or the
     * empty form; the chosen file is kept when a room is loaded.
     */
    method Open(room: Option<Room>)
      modifies this
      ensures room.Some? ==> Fields() == RoomFields(room.value.name, Some(room.value.floor),
        room.value.capacity, room.value.facilities, room.value.status) && imageFile == old(imageFile)
      ensures room.None? ==> Fields() == EMPTY_FIELDS && imageFile.None?
      ensures loading == old(loading)
    {
      if room.Some? {
        name, floor, capacity := room.value.name, Some(room.value.floor), room.value.capacity;
        facilities, status := room.value.facilities, room.value.status;
      } else {
        ResetForm();
      }
    }

    method OnFacilityToggle(facility: string)
      modifies this
      ensures facilities == ToggleFacility(old(facilities), facility)
      ensures name == old(name) && floor == old(floor) && capacity == old(capacity) && status == old(status)
      ensures imageFile == old(imageFile) && loading == old(loading)
    {
      facilities := ToggleFacility(facilities, facility);
    }

    method OnCapacityChange(value: string)
      modifies this
      ensures capacity == CapacityFromInput(value)
      ensures name == old(name) && floor == old(floor) && facilities == old(facilities) && status == old(status)
      ensures imageFile == old(imageFile) && loading == old(loading)
    {
      capacity := CapacityFromInput(value);
    }

    method OnFloorChange(value: string)
      modifies this
      ensures floor == FloorFromSelect(value)
      ensures name == old(name) && capacity == old(capacity) && facilities == old(facilities) && status == old(status)
      ensures imageFile == old(imageFile) && loading == old(loading)
    {
      floor := FloorFromSelect(value);
    }

    /**
     * `handleSubmit`: the outcome of `SaveRoom` on the current values; a
     * successful save resets the form; loading ends false whatever happens.
     */
    method HandleSubmit(room: Option<Room>, uploadOk: bool, publicUrl: string, saveOk: bool)
      returns (outcome: SaveOutcome)
      modifies this
      ensures outcome == SaveRoom(room, old(Fields()), old(imageFile), uploadOk, publicUrl, saveOk)
      ensures outcome.Saved? ==> Fields() == EMPTY_FIELDS && imageFile.None?
      ensures !outcome.Saved? ==> Fields() == old(Fields()) && imageFile == old(imageFile)
      ensures !loading
    {
      loading := true;
      var imageUrl := KeptImageUrl(room);
      if imageFile.Some? {
        var guard := ImageGuard(imageFile.value);
        if guard == TooLarge {
          loading := false;
          return ImageTooLarge;
        }
        if guard == TypeNotAllowed {
          loading := false;
          return ImageTypeNotAllowed;
        }
        if !uploadOk {
          loading := false;
          return UploadFailed;
        }
        imageUrl := Some(publicUrl);
      }
      if !saveOk {
        outcome := SaveFailed;
      } else {
        outcome := Saved(Fields(), imageUrl, if room.Some? then Some(room.value.id) else None);
        ResetForm();
      }
      loading := false;
    }
  }
}
