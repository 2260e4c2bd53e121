/** The listing-creation wizard: the form a seller fills in over seven steps,
    the step it is on, and the handlers that change either. */
module ListingForm {
  import opened Wrappers
  import opened JsText
  import Stepper

  /** A file the browser hands over; its contents never matter here. */
  datatype MediaFile = MediaFile(name: string, size: nat)

  /** One step of the wizard, as listed for the stepper. */
  datatype StepInfo = StepInfo(id: string, heading: string, description: string)

  const Steps: seq<StepInfo> := [
    StepInfo("basic", "Basic Details", "Title, size, type, price"),
    StepInfo("location", "Location", "Area, coordinates, landmarks"),
    StepInfo("legal", "Legal Status", "Documents, ownership, disputes"),
    StepInfo("physical", "Physical", "Topography, soil, vegetation"),
    StepInfo("media", "Media", "Photos & videos"),
    StepInfo("seller", "Seller Info", "Contact, verification"),
    StepInfo("review", "Review & Publish", "Final check")
  ]

  const LastStep: nat := |Steps| - 1

  /** The scalar fields an input, select or checkbox edits, grouped by the
      step that asks for them. */
  datatype Field =
    | Title | Size | LandType | Price | Negotiable | Description
    | Quarter | City | Latitude | Longitude | DistanceToRoad | Landmarks
    | DocumentType | DocumentNumber | VerificationStatus | OwnershipType | HasDisputes | DisputeDetails
    | Topography | FloodRisk | SoilType | Vegetation
    | SellerType | Phone | Whatsapp | Verified

  /** What an input hands to the change handler: text, or a checkbox's state. */
  datatype FieldValue = Text(s: string) | Flag(b: bool)

  predicate IsFlagField(f: Field) {
    f == Negotiable || f == HasDisputes || f == Verified
  }

  /** Text inputs pass text and checkboxes pass booleans. */
  predicate Fits(f: Field, v: FieldValue) {
    IsFlagField(f) <==> v.Flag?
  }

  /** Everything the seller enters. The scalar fields form an object keyed by
      field name, which the change handler updates under a computed key; the
      media are kept beside them. */
  datatype FormData = FormData(fields: map<Field, FieldValue>, photos: seq<MediaFile>, video: Option<MediaFile>)

  /** Every field is present and holds a value of its kind. */
  ghost predicate WellFormed(form: FormData) {
    forall f: Field :: f in form.fields && Fits(f, form.fields[f])
  }

  /** The text of field `f` (the empty string for a checkbox). */
  function TextOf(form: FormData, f: Field): string {
    if f in form.fields && form.fields[f].Text? then form.fields[f].s else ""
  }

  /** Whether checkbox `f` is ticked. */
  function Checked(form: FormData, f: Field): bool {
    f in form.fields && form.fields[f].Flag? && form.fields[f].b
  }

  const AllFields: set<Field> := {
    Title, Size, LandType, Price, Negotiable, Description,
    Quarter, City, Latitude, Longitude, DistanceToRoad, Landmarks,
    DocumentType, DocumentNumber, VerificationStatus, OwnershipType, HasDisputes, DisputeDetails,
    Topography, FloodRisk, SoilType, Vegetation,
    SellerType, Phone, Whatsapp, Verified
  }

  /** What each field holds when the page first shows the form: the values
      the page's initial state gives, each of the kind its field takes. */
  function InitialValue(f: Field): (v: FieldValue)
    ensures Fits(f, v)
  {
    match f
    case LandType => Text("Residential")
    case City => Text("Buea")
    case DocumentType => Text("Layout plan")
    case VerificationStatus => Text("Pending")
    case OwnershipType => Text("Individual")
    case Topography => Text("Flat")
    case FloodRisk => Text("Low")
    case SoilType => Text("Volcanic")
    case Vegetation => Text("Cleared")
    case SellerType => Text("Agent")
    case Negotiable => Flag(false)
    case HasDisputes => Flag(false)
    case Verified => Flag(false)
    case _ => Text("")
  }

  /** The initial form, with no photos and no video. */
  const InitialForm: FormData := FormData(map f | f in AllFields :: InitialValue(f), [], None)

  lemma InitialFormWellFormed()
    ensures WellFormed(InitialForm)
  {
    forall f: Field ensures f in AllFields {
      match f {
        case Title => case Size => case LandType => case Price => case Negotiable =>
        case Description => case Quarter => case City => case Latitude => case Longitude =>
        case DistanceToRoad => case Landmarks => case DocumentType => case DocumentNumber =>
        case VerificationStatus => case OwnershipType => case HasDisputes => case DisputeDetails =>
        case Topography => case FloodRisk => case SoilType => case Vegetation =>
        case SellerType => case Phone => case Whatsapp => case Verified =>
      }
    }
  }

  /** `{ ...prev, [field]: value }`: field `f` becomes `v`; every other field
      and the media keep their values, and the form stays well formed. */
  function SetField(form: FormData, f: Field, v: FieldValue): (r: FormData)
    requires Fits(f, v)
    ensures WellFormed(form) ==> WellFormed(r)
    ensures f in r.fields && r.fields[f] == v
    ensures forall g :: g != f ==> (g in r.fields <==> g in form.fields)
    ensures forall g :: g != f && g in form.fields ==> r.fields[g] == form.fields[g]
    ensures r.photos == form.photos && r.video == form.video
  {
    form.(fields := form.fields[f := v])
  }

  /** `photos.filter((_, i) => i !== index)`: drops the element at `index`,
      if there is one, and keeps the rest in order. */
  function RemoveAt<T>(s: seq<T>, index: int): (r: seq<T>)
    ensures 0 <= index < |s| ==> r == s[..index] + s[index + 1..]
    ensures !(0 <= index < |s|) ==> r == s
  {
    if s == [] then []
    else (if index == 0 then [] else [s[0]]) + RemoveAt(s[1..], index - 1)
  }

  /** Why the Next button refuses to leave the current step, if it does. */
  function Guard(step: nat, form: FormData): (alert: Option<string>)
    ensures alert.Some? <==>
      (step == 0 && (IsBlank(TextOf(form, Title)) || IsBlank(TextOf(form, Size)) || IsBlank(TextOf(form, Price))))
      || (step == 1 && IsBlank(TextOf(form, Quarter)))
  {
    if step == 0 && (IsBlank(TextOf(form, Title)) || IsBlank(TextOf(form, Size)) || IsBlank(TextOf(form, Price))) then
      Some("Please fill in all required fields: Title, Size, and Price")
    else if step == 1 && IsBlank(TextOf(form, Quarter)) then
      Some("Please select a quarter/area")
    else None
  }

  /** The guard in terms of the characters typed: a step is refused exactly
      when one of its required inputs holds nothing but white space, and the
      steps after the second are never refused. */
  lemma GuardAllSpace(step: nat, form: FormData)
    ensures Guard(step, form).Some? <==>
      (step == 0 && (AllSpace(TextOf(form, Title)) || AllSpace(TextOf(form, Size)) || AllSpace(TextOf(form, Price))))
      || (step == 1 && AllSpace(TextOf(form, Quarter)))
    ensures step >= 2 ==> Guard(step, form).None?
  {
    BlankIffAllSpace(TextOf(form, Title));
    BlankIffAllSpace(TextOf(form, Size));
    BlankIffAllSpace(TextOf(form, Price));
    BlankIffAllSpace(TextOf(form, Quarter));
  }

  class Wizard {
    var step: nat
    var form: FormData

    ghost predicate Valid()
      reads this
    {
      step <= LastStep && WellFormed(form)
    }

    constructor ()
      ensures Valid() && step == 0 && form == InitialForm
    {
      InitialFormWellFormed();
      step := 0;
      form := InitialForm;
    }

    /** `handleInputChange`: one field takes the value the input reports. */
    method HandleInputChange(f: Field, v: FieldValue)
      requires Valid() && Fits(f, v)
      modifies this
      ensures Valid() && step == old(step)
      ensures form == SetField(old(form), f, v)
      ensures form.fields[f] == v
      ensures forall g :: g != f ==> form.fields[g] == old(form).fields[g]
    {
      form := SetField(form, f, v);
    }

    /** `handlePhotoUpload`: the chosen files go after the photos already there. */
    method HandlePhotoUpload(files: seq<MediaFile>)
      requires Valid()
      modifies this
      ensures Valid() && step == old(step)
      ensures form == old(form).(photos := old(form.photos) + files)
    {
      form := form.(photos := form.photos + files);
    }

    /** `handleVideoUpload`: the first chosen file, if any, becomes the
        video. No element of the page calls this handler. */
    method HandleVideoUpload(files: seq<MediaFile>)
      requires Valid()
      modifies this
      ensures Valid() && step == old(step)
      ensures form == if files == [] then old(form) else old(form).(video := Some(files[0]))
    {
      if files != [] {
        form := form.(video := Some(files[0]));
      }
    }

    /** `removePhoto`: the photo at `index` goes; an index outside the list
        changes nothing. No element of the page calls this handler. */
    method RemovePhoto(index: int)
      requires Valid()
      modifies this
      ensures Valid() && step == old(step)
      ensures form == old(form).(photos := RemoveAt(old(form.photos), index))
    {
      form := form.(photos := RemoveAt(form.photos, index));
    }

    /** `handleNext`: the step's guard may raise an alert and keep the step;
        otherwise the wizard moves on, stopping at the last step. */
    method HandleNext() returns (alert: Option<string>)
      requires Valid()
      modifies this
      ensures Valid() && form == old(form)
      ensures alert == Guard(old(step), form)
      ensures alert.Some? ==> step == old(step)
      ensures alert.None? ==> step == if old(step) < LastStep then old(step) + 1 else old(step)
    {
      alert := Guard(step, form);
      if alert.None? && step < LastStep {
        step := step + 1;
      }
    }

    /** `handlePrev`: one step back, never before the first. */
    method HandlePrev()
      requires Valid()
      modifies this
      ensures Valid() && form == old(form)
      ensures step == if old(step) > 0 then old(step) - 1 else 0
    {
      if step > 0 {
        step := step - 1;
      }
    }

    /** A click on the stepper's button for step `index`: the button of a step
        ahead of the current one is disabled, so only the current step or an
        earlier one can be reached this way. */
    method StepClick(index: nat)
      requires Valid() && index < |Steps|
      modifies this
      ensures Valid() && form == old(form)
      ensures step == if Stepper.Disabled(index, old(step)) then old(step) else index
      ensures step <= old(step)
    {
      if !Stepper.Disabled(index, step) {
        step := index;
      }
    }
  }
}
