/**
 * The edit form (MyPlaces/NewPlaceViewController.swift): creates a new place
 * or overwrites the one being edited, and keeps the Save button enabled only
 * while the name field has text.
 */
module EditScreen {
  import opened Wrappers
  import opened Places
  import opened Storage
  import opened Rating

  /**
   * The picture `savePlace` stores: what the image view shows once an image
   * was picked (or an existing record is being edited), the placeholder
   * otherwise.
   */
  function ChosenImage(imageIsChanged: bool, shown: Option<Image>): (r: Option<Image>)
    ensures imageIsChanged ==> r == shown
    ensures !imageIsChanged ==> r == Some(Placeholder)
  {
    if imageIsChanged then shown else Some(Placeholder)
  }

  /** `image?.pngData()`: no data without a picture; the data decodes back to the picture. */
  function ImageDataFor(image: Option<Image>): (r: Option<ImageData>)
    ensures r.Some? <==> image.Some?
    ensures r.Some? ==> DecodeImage(r.value) == image
  {
    match image
    case None => None
    case Some(i) => Some(PngData(i))
  }

  /** `textFieldChanged`: Save is enabled exactly when the name field holds a non-empty text. */
  function SaveEnabledFor(nameText: Option<string>): (r: bool)
    ensures r <==> nameText.Some? && |nameText.value| > 0
  {
    nameText.Some? && nameText.value != ""
  }

  /** Swift's `Int(_: Double)`: the integer part, rounding toward zero. */
  function TruncateToInt(x: real): (r: int)
    ensures x >= 0.0 ==> r as real <= x < r as real + 1.0
    ensures x < 0.0 ==> r as real - 1.0 < x <= r as real
  {
    if x >= 0.0 then x.Floor else -((-x).Floor)
  }

  /**
   * A star rating stored as `Double(rating)` and read back with `Int(...)` is
   * the rating the control had.
   */
  lemma RatingRoundTrip(n: int)
    ensures TruncateToInt(n as real) == n
  {
  }

  /** The picture a stored record shows when it is opened for editing, if its data decodes. */
  function StoredImage(p: Place): (r: Option<Image>)
    reads p
    ensures r.Some? ==> p.imageData.Some? && p.imageData.value == PngData(r.value)
  {
    match p.imageData
    case None => None
    case Some(data) => DecodeImage(data)
  }

  class NewPlaceViewController {
    /** The global Realm the form writes to. */
    const realm: Realm
    const ratingControl: RatingControl
    /** Whether the form sits in a navigation controller (it has a top item). */
    const inNavigationStack: bool

    /** The record being edited; null when a new one is being created. */
    var currentPlace: Place?
    var imageIsChanged: bool
    var saveEnabled: bool
    var placeImage: Option<Image>
    var nameText: Option<string>
    var locationText: Option<string>
    var typeText: Option<string>
    var title: Option<string>
    /** Whether the Cancel item is in the navigation bar. */
    var cancelShown: bool
    /** The title of the back button the form installs, if it installed one. */
    var backButtonTitle: Option<string>

    /**
     * The form as the storyboard creates it, with `currentPlace` set by the
     * presenting screen (null for a new record).
     */
    constructor (realm: Realm, ratingControl: RatingControl, currentPlace: Place?, inNavigationStack: bool)
      ensures this.realm == realm && this.ratingControl == ratingControl
      ensures this.currentPlace == currentPlace && this.inNavigationStack == inNavigationStack
      ensures !imageIsChanged && saveEnabled && cancelShown && title == None && backButtonTitle == None
      ensures placeImage == None && nameText == Some("") && locationText == Some("") && typeText == Some("")
    {
      this.realm := realm;
      this.ratingControl := ratingControl;
      this.inNavigationStack := inNavigationStack;
      this.currentPlace := currentPlace;
      imageIsChanged := false;
      saveEnabled := true;
      placeImage := None;
      nameText := Some("");
      locationText := Some("");
      typeText := Some("");
      title := None;
      cancelShown := true;
      backButtonTitle := None;
    }

    /**
     * `viewDidLoad`: Save starts disabled; for an existing record the edit
     * screen is then set up, which enables it and fills the form from the
     * record when its image data decodes.
     */
    method ViewDidLoad()
      requires ratingControl.Valid()
      modifies this`backButtonTitle, this`cancelShown, this`title, this`saveEnabled, this`imageIsChanged,
              this`placeImage, this`nameText, this`locationText, this`typeText, ratingControl, ratingControl.ratingButtons
      ensures ratingControl.Valid()
      ensures ratingControl.starCount == old(ratingControl.starCount) && ratingControl.starSize == old(ratingControl.starSize)
      ensures ratingControl.ratingButtons == old(ratingControl.ratingButtons)
      ensures backButtonTitle == if currentPlace != null && inNavigationStack then Some("") else old(backButtonTitle)
      ensures currentPlace == old(currentPlace)
      ensures saveEnabled <==> currentPlace != null
      ensures imageIsChanged <==> (old(imageIsChanged) || currentPlace != null)
      ensures currentPlace == null ==> title == old(title) && cancelShown == old(cancelShown)
      ensures currentPlace != null ==> title == Some(currentPlace.name) && !cancelShown
      ensures currentPlace != null && StoredImage(currentPlace).Some? ==>
        && placeImage == StoredImage(currentPlace)
        && nameText == Some(currentPlace.name)
        && locationText == currentPlace.location
        && typeText == currentPlace.placeType
        && ratingControl.rating == TruncateToInt(currentPlace.rating)
      ensures (currentPlace == null || StoredImage(currentPlace).None?) ==>
        && placeImage == old(placeImage) && nameText == old(nameText)
        && locationText == old(locationText) && typeText == old(typeText)
        && ratingControl.rating == old(ratingControl.rating)
    {
      saveEnabled := false;
      SetupEditScreen();
    }

    /**
     * `p` holds what the form shows: its name, location and type, the data
     * of the chosen picture, and the stars as a Double.
     */
    ghost predicate HoldsForm(p: Place)
      reads this, p, ratingControl
    {
      && nameText == Some(p.name)
      && p.location == locationText
      && p.placeType == typeText
      && p.imageData == ImageDataFor(ChosenImage(imageIsChanged, placeImage))
      && p.rating == ratingControl.rating as real
    }

    /**
     * `savePlace`: build a record from the form; in edit mode copy its name,
     * location, type, image data and rating into `currentPlace` inside one
     * write transaction (the date stays), otherwise save it as a new record.
     * `now` is the clock reading the new record's date is taken from.
     */
    method SavePlace(now: Time)
      requires realm.Valid() && !realm.inWriteTransaction && nameText.Some?
      modifies realm, currentPlace
      ensures realm.Valid() && !realm.inWriteTransaction
      ensures currentPlace != null ==>
        && realm.objects == old(realm.objects)
        && HoldsForm(currentPlace)
        && currentPlace.date == old(currentPlace.date)
      ensures currentPlace == null ==>
        && |realm.objects| == |old(realm.objects)| + 1
        && realm.objects[..|old(realm.objects)|] == old(realm.objects)
        && fresh(realm.objects[|old(realm.objects)|])
        && HoldsForm(realm.objects[|old(realm.objects)|])
        && realm.objects[|old(realm.objects)|].date == now
    {
      var image := if imageIsChanged then placeImage else Some(Placeholder);
      var imageData := ImageDataFor(image);
      var newPlace := new Place(nameText.value, locationText, typeText, imageData, ratingControl.rating as real, now);

      if currentPlace != null {
        realm.BeginWrite();
        currentPlace.name := newPlace.name;
        currentPlace.location := newPlace.location;
        currentPlace.placeType := newPlace.placeType;
        currentPlace.imageData := newPlace.imageData;
        currentPlace.rating := newPlace.rating;
        realm.CommitWrite();
      } else {
        SaveObject(realm, newPlace);
      }
    }

    /**
     * `setupEditScreen`: for an existing record, set up the navigation bar
     * and mark the image as chosen; then, only if the stored image data
     * decodes, fill the image, the three text fields and the stars from the
     * record (the rating truncated to an integer).
     */
    method SetupEditScreen()
      requires ratingControl.Valid()
      modifies this`backButtonTitle, this`cancelShown, this`title, this`saveEnabled, this`imageIsChanged,
              this`placeImage, this`nameText, this`locationText, this`typeText, ratingControl, ratingControl.ratingButtons
      ensures ratingControl.Valid()
      ensures ratingControl.starCount == old(ratingControl.starCount) && ratingControl.starSize == old(ratingControl.starSize)
      ensures ratingControl.ratingButtons == old(ratingControl.ratingButtons)
      ensures backButtonTitle == if currentPlace != null && inNavigationStack then Some("") else old(backButtonTitle)
      ensures currentPlace == old(currentPlace)
      ensures currentPlace == null ==>
        && imageIsChanged == old(imageIsChanged) && saveEnabled == old(saveEnabled)
        && title == old(title) && cancelShown == old(cancelShown)
      ensures currentPlace != null ==>
        && imageIsChanged && saveEnabled && title == Some(currentPlace.name) && !cancelShown
      ensures currentPlace != null && StoredImage(currentPlace).Some? ==>
        && placeImage == StoredImage(currentPlace)
        && nameText == Some(currentPlace.name)
        && locationText == currentPlace.location
        && typeText == currentPlace.placeType
        && ratingControl.rating == TruncateToInt(currentPlace.rating)
      ensures (currentPlace == null || StoredImage(currentPlace).None?) ==>
        && placeImage == old(placeImage) && nameText == old(nameText)
        && locationText == old(locationText) && typeText == old(typeText)
        && ratingControl.rating == old(ratingControl.rating)
    {
      if currentPlace != null {
        SetupNavigationBar();
        imageIsChanged := true;

        var image := StoredImage(currentPlace);
        if image.None? {
          return;
        }
        placeImage := image;
        nameText := Some(currentPlace.name);
        locationText := currentPlace.location;
        typeText := currentPlace.placeType;
        ratingControl.SetRating(TruncateToInt(currentPlace.rating));
      }
    }

    /**
     * `setupNavigationBar`: a bare back arrow when there is a navigation
     * bar, no Cancel item, the record's name as title, and Save always
     * enabled.
     */
    method SetupNavigationBar()
      requires currentPlace != null
      modifies this`backButtonTitle, this`cancelShown, this`title, this`saveEnabled
      ensures currentPlace == old(currentPlace) && imageIsChanged == old(imageIsChanged)
      ensures backButtonTitle == if inNavigationStack then Some("") else old(backButtonTitle)
      ensures !cancelShown && title == Some(currentPlace.name) && saveEnabled
      ensures placeImage == old(placeImage) && nameText == old(nameText)
      ensures locationText == old(locationText) && typeText == old(typeText)
    {
      if inNavigationStack {
        backButtonTitle := Some("");
      }
      cancelShown := false;
      title := Some(currentPlace.name);
      saveEnabled := true;
    }

    /** `textFieldChanged`, the name field's editing-changed action. */
    method TextFieldChanged()
      modifies this`saveEnabled
      ensures saveEnabled == SaveEnabledFor(nameText)
      ensures nameText == old(nameText) && currentPlace == old(currentPlace) && imageIsChanged == old(imageIsChanged)
    {
      if nameText.Some? && nameText.value != "" {
        saveEnabled := true;
      } else {
        saveEnabled := false;
      }
    }

    /** Typing in the name field: the text changes and `textFieldChanged` runs. */
    method EditName(text: Option<string>)
      modifies this`nameText, this`saveEnabled
      ensures nameText == text && saveEnabled == SaveEnabledFor(text)
      ensures currentPlace == old(currentPlace) && imageIsChanged == old(imageIsChanged)
    {
      nameText := text;
      TextFieldChanged();
    }

    /** The image picker's `didFinishPickingMediaWithInfo`: show the edited image and mark it chosen. */
    method DidPickImage(edited: Option<Image>)
      modifies this`placeImage, this`imageIsChanged
      ensures placeImage == edited && imageIsChanged
      ensures nameText == old(nameText) && currentPlace == old(currentPlace) && saveEnabled == old(saveEnabled)
    {
      placeImage := edited;
      imageIsChanged := true;
    }
  }
}
