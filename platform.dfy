/**
 * The browser-side state of `frontend/main.js`: its own `Database` client and
 * the `PetCarePlatform` object that holds the theme, the notification list,
 * the cart counter and the user's pets.
 */
module Platform {
  import opened Wrappers
  import opened Http
  import opened ApiClient
  import Tables
  import Auth
  import JsString
  import Text

  // ---------------------------------------------------------------- Database

  /**
   * The `Database` class of `frontend/main.js`: the same header rule as the
   * one of `frontend/database.js`, a different fallback error text, and a
   * `register` that leaves the session alone.
   */
  class Database {
    const apiUrl: string
    var token: Option<string>
    const storage: LocalStorage

    constructor (storage: LocalStorage)
      ensures this.storage == storage && apiUrl == ApiUrl
      ensures token == storage.GetItem(TokenKey)
    {
      this.storage := storage;
      apiUrl := ApiUrl;
      token := storage.GetItem(TokenKey);
    }

    /** `apiCall`: a non-ok reply is thrown as its `error` text or "API error"; nothing changes. */
    method ApiCall<B, T>(fetch: Fetch<B, T>, endpoint: string, verb: string, caller: map<string, string>, body: Option<B>)
      returns (r: Result<Body<T>, string>)
      ensures r == Settle(fetch(Outgoing(apiUrl, token, endpoint, verb, caller, body)), ApiError)
    {
      var request := Outgoing(apiUrl, token, endpoint, verb, caller, body);
      r := Settle(fetch(request), ApiError);
    }

    /** `login(email, password)`: on success the token goes to the field and to localStorage. */
    method Login(fetch: Fetch<Auth.LoginBody, Auth.Session>, email: string, password: string)
      returns (r: Result<Option<Auth.PublicUser>, string>)
      modifies this`token, storage
      ensures var reply := Settle(fetch(Outgoing(apiUrl, old(token), "/auth/login", "POST", map[], Some(Auth.LoginBody(Some(email), Some(password))))), ApiError);
              && (reply.Failure? ==> r == Failure(reply.error) && token == old(token) && storage.items == old(storage.items))
              && (reply.Success? ==>
                    && r == Success(ReturnedUser(reply.value))
                    && token == HeldToken(reply.value)
                    && storage.items == old(storage.items)[TokenKey := StoredToken(reply.value)])
    {
      var reply := ApiCall(fetch, "/auth/login", "POST", map[], Some(Auth.LoginBody(Some(email), Some(password))));
      if reply.Failure? {
        return Failure(reply.error);
      }
      token := HeldToken(reply.value);
      storage.SetItem(TokenKey, StoredToken(reply.value));
      r := Success(ReturnedUser(reply.value));
    }

    /** `register(userData)`: returns the new user and keeps neither token nor storage. */
    method Register(fetch: Fetch<Auth.RegisterBody, Auth.Session>, userData: Auth.RegisterBody)
      returns (r: Result<Option<Auth.PublicUser>, string>)
      ensures var reply := Settle(fetch(Outgoing(apiUrl, token, "/auth/register", "POST", map[], Some(userData))), ApiError);
              && (reply.Failure? ==> r == Failure(reply.error))
              && (reply.Success? ==> r == Success(ReturnedUser(reply.value)))
    {
      var reply := ApiCall(fetch, "/auth/register", "POST", map[], Some(userData));
      if reply.Failure? {
        return Failure(reply.error);
      }
      r := Success(ReturnedUser(reply.value));
    }
  }

  // ---------------------------------------------------------------- theme

  const Light := "light"
  const Dark := "dark"
  const ThemeKey := "theme"

  /** The theme after a toggle: dark after light, light after anything else. */
  function Toggled(theme: string): (t: string)
    ensures t == Light || t == Dark
    ensures t == Dark <==> theme == Light
  {
    if theme == Light then Dark else Light
  }

  /** Toggling twice restores the theme exactly when it was light or dark to begin with. */
  lemma ToggleTwice(theme: string)
    ensures Toggled(Toggled(theme)) == theme <==> theme == Light || theme == Dark
  {
  }

  // ---------------------------------------------------------------- notifications

  /** A notification as the list holds it; a missing `isRead` behaves as false everywhere. */
  datatype Notification = Notification(id: int, kind: string, title: string, message: string,
                                       isRead: bool, timestamp: string)

  /** A notification as the caller hands it over; its own `id`, if any, wins over the clock. */
  datatype NotificationInput = NotificationInput(id: Option<int>, kind: string, title: string, message: string,
                                                 isRead: bool, timestamp: string)

  /** `{ id: Date.now(), ...notification }`. */
  function Stamped(n: NotificationInput, now: int): (r: Notification)
    ensures r.id == (if n.id.Some? then n.id.value else now)
    ensures NotificationInput(n.id, r.kind, r.title, r.message, r.isRead, r.timestamp) == n
  {
    Notification(if n.id.Some? then n.id.value else now, n.kind, n.title, n.message, n.isRead, n.timestamp)
  }

  function IsUnread(n: Notification): bool
  {
    !n.isRead
  }

  /**
   * `notifications.filter(n => !n.isRead).length`: at most the number of
   * notifications, and zero exactly when every one has been read.
   */
  function UnreadCount(ns: seq<Notification>): (n: nat)
    ensures n <= |ns|
    ensures n == 0 <==> forall i :: 0 <= i < |ns| ==> ns[i].isRead
  {
    assert (exists i :: 0 <= i < |ns| && !ns[i].isRead) ==> Tables.Filter(ns, IsUnread) != [] by {
      if i :| 0 <= i < |ns| && !ns[i].isRead {
        assert IsUnread(ns[i]);
      }
    }
    assert Tables.Filter(ns, IsUnread) != [] ==> exists i :: 0 <= i < |ns| && !ns[i].isRead by {
      var r := Tables.Filter(ns, IsUnread);
      if r != [] {
        assert r[0] in ns && IsUnread(r[0]);
      }
    }
    |Tables.Filter(ns, IsUnread)|
  }

  /** The badge or counter element: the number it shows and whether it is displayed. */
  datatype Badge = Badge(text: int, shown: bool)

  /** A count shown on a badge that is displayed only when the count is positive. */
  function BadgeFor(n: int): Badge
  {
    Badge(n, n > 0)
  }

  /** `notifications.find(n => n.id == id)`, as an index: the first match. */
  function FindNotification(ns: seq<Notification>, id: int): (k: Option<nat>)
    ensures k.Some? ==> k.value < |ns| && ns[k.value].id == id && forall j :: 0 <= j < k.value ==> ns[j].id != id
    ensures k.None? ==> forall j :: 0 <= j < |ns| ==> ns[j].id != id
  {
    if ns == [] then None
    else if ns[0].id == id then Some(0)
    else match FindNotification(ns[1..], id)
      case None => None
      case Some(k) => Some(k + 1)
  }

  /**
   * The list after `markNotificationAsRead(id)`: the first match is marked
   * read; no notification changes anything but its read flag, and none is
   * marked unread.
   */
  function MarkedRead(ns: seq<Notification>, id: int): (r: seq<Notification>)
    ensures |r| == |ns|
    ensures forall j :: 0 <= j < |ns| ==> r[j].(isRead := ns[j].isRead) == ns[j] && (ns[j].isRead ==> r[j].isRead)
    ensures FindNotification(ns, id).Some? ==> r[FindNotification(ns, id).value].isRead
  {
    match FindNotification(ns, id)
    case None => ns
    case Some(k) => ns[k := ns[k].(isRead := true)]
  }

  /**
   * Marking changes only the first notification with that id, and only its
   * read flag; an unknown id changes nothing.
   */
  lemma MarkedReadEffect(ns: seq<Notification>, id: int)
    ensures |MarkedRead(ns, id)| == |ns|
    ensures (forall j :: 0 <= j < |ns| ==> ns[j].id != id) ==> MarkedRead(ns, id) == ns
    ensures forall j :: 0 <= j < |ns| ==>
              MarkedRead(ns, id)[j] == if (ns[j].id == id && forall i :: 0 <= i < j ==> ns[i].id != id)
                                       then ns[j].(isRead := true) else ns[j]
  {
    match FindNotification(ns, id)
    case None =>
    case Some(k) =>
      forall j | 0 <= j < |ns| && ns[j].id == id && forall i :: 0 <= i < j ==> ns[i].id != id
        ensures j == k
      {
      }
  }

  /** Marking the same id twice is marking it once. */
  lemma {:induction false} MarkedReadIdempotent(ns: seq<Notification>, id: int)
    ensures MarkedRead(MarkedRead(ns, id), id) == MarkedRead(ns, id)
  {
    match FindNotification(ns, id)
    case None =>
    case Some(k) =>
      var once := MarkedRead(ns, id);
      FoundFirst(once, id, k);
  }

  /** The first index holding the id is the one `find` returns. */
  lemma {:induction false} FoundFirst(ns: seq<Notification>, id: int, k: nat)
    requires k < |ns| && ns[k].id == id
    requires forall j :: 0 <= j < k ==> ns[j].id != id
    ensures FindNotification(ns, id) == Some(k)
  {
    if k > 0 {
      FoundFirst(ns[1..], id, k - 1);
    }
  }

  /** Rewriting one element changes a filter's length by the difference it makes to the condition. */
  lemma FilterLengthUpdate<T>(s: seq<T>, k: nat, x: T, p: T -> bool)
    requires k < |s|
    ensures |Tables.Filter(s[k := x], p)| == |Tables.Filter(s, p)| - (if p(s[k]) then 1 else 0) + (if p(x) then 1 else 0)
  {
    Tables.FilterCount(s, p);
    Tables.FilterCount(s[k := x], p);
    CountUpdate(s, k, x, p);
  }

  /** Rewriting one element changes a count by the difference it makes to the condition. */
  lemma {:induction false} CountUpdate<T>(s: seq<T>, k: nat, x: T, p: T -> bool)
    requires k < |s|
    ensures Tables.Count(s[k := x], p) == Tables.Count(s, p) - (if p(s[k]) then 1 else 0) + (if p(x) then 1 else 0)
  {
    if k == 0 {
      assert s[k := x][1..] == s[1..];
    } else {
      assert s[k := x][1..] == s[1..][k - 1 := x];
      assert s[k := x][0] == s[0];
      CountUpdate(s[1..], k - 1, x, p);
    }
  }

  /** Marking an unread notification read takes one off the unread count; nothing else does. */
  lemma MarkedReadCount(ns: seq<Notification>, id: int)
    ensures var k := FindNotification(ns, id);
            UnreadCount(MarkedRead(ns, id)) == UnreadCount(ns) - (if k.Some? && !ns[k.value].isRead then 1 else 0)
  {
    match FindNotification(ns, id)
    case None =>
    case Some(k) =>
      FilterLengthUpdate(ns, k, ns[k].(isRead := true), IsUnread);
  }

  /** A new notification adds one to the unread count exactly when it is unread. */
  lemma AddedCount(n: Notification, ns: seq<Notification>)
    ensures UnreadCount([n] + ns) == UnreadCount(ns) + (if n.isRead then 0 else 1)
  {
    assert ([n] + ns)[1..] == ns;
  }

  // ---------------------------------------------------------------- cart

  datatype CartItem = CartItem(quantity: int)

  /**
   * `cart.reduce((sum, item) => sum + item.quantity, acc)`: a left fold,
   * which from any start value is that value plus every quantity.
   */
  function Reduce(items: seq<CartItem>, acc: int): (r: int)
    ensures r == acc + QuantitySum(items)
  {
    if items == [] then acc else Reduce(items[1..], acc + items[0].quantity)
  }

  /** The number of items in the cart: every quantity added up. */
  function QuantitySum(items: seq<CartItem>): int
  {
    if items == [] then 0 else items[0].quantity + QuantitySum(items[1..])
  }

  /** With no negative quantities, the counter is hidden exactly when every quantity is zero. */
  lemma {:induction false} EmptyCartHidden(items: seq<CartItem>)
    requires forall i :: 0 <= i < |items| ==> items[i].quantity >= 0
    ensures QuantitySum(items) >= 0
    ensures QuantitySum(items) == 0 <==> forall i :: 0 <= i < |items| ==> items[i].quantity == 0
  {
    if items != [] {
      EmptyCartHidden(items[1..]);
      assert forall i :: 1 <= i < |items| ==> items[i] == items[1..][i - 1];
    }
  }

  // ---------------------------------------------------------------- pets

  /** The ids of the form fields `handleAddPetForm` reads. */
  const RequiredFields := ["pet-name", "pet-species", "pet-location"]
  const FormFields: set<string> := {"pet-name", "pet-species", "pet-breed", "pet-gender", "pet-age-years",
                                    "pet-age-months", "pet-weight", "pet-color", "pet-location", "pet-phone",
                                    "pet-vaccinated", "pet-spayed", "pet-medical-notes", "pet-notes"}

  const MixedBreed := "Mixed Breed"
  const UnknownGender := "Unknown"
  const NotSpecified := "Not specified"

  /** Whose pet it is: the logged-in user's id, or the demo user. */
  datatype Owner = Account(id: nat) | DemoUser

  /** A pet as the page keeps it. */
  datatype ClientPet = ClientPet(id: string, userId: Owner, name: string, species: string, breed: string,
                                 gender: string, ageYears: int, ageMonths: int, color: string, location: string,
                                 phone: string, vaccinationStatus: string, spayedNeutered: string,
                                 medicalNotes: string, additionalNotes: string, profilePicture: string,
                                 healthRecords: seq<string>, nextAppointment: Option<string>, createdAt: string)

  /**
   * A field that fails `value.trim()`: nothing but white space, which is
   * when the trimmed value is empty (`JsString.TrimBlank`).
   */
  predicate Blank(value: string)
  {
    forall i :: 0 <= i < |value| ==> JsString.IsSpace(value[i])
  }

  /** Every one of the fields holds something besides white space. */
  predicate Filled(form: map<string, string>, fields: seq<string>)
    requires forall i :: 0 <= i < |fields| ==> fields[i] in form
  {
    forall i :: 0 <= i < |fields| ==> !Blank(form[fields[i]])
  }

  /**
   * The error borders after checking `fields` in order: each checked field
   * gains the border when blank and loses it otherwise.
   */
  function Marks(marked: set<string>, form: map<string, string>, fields: seq<string>): set<string>
    requires forall i :: 0 <= i < |fields| ==> fields[i] in form
  {
    if fields == [] then marked
    else
      var last := fields[|fields| - 1];
      var before := Marks(marked, form, fields[..|fields| - 1]);
      if Blank(form[last]) then before + {last} else before - {last}
  }

  /** With distinct fields, a checked field has the border exactly when blank; others keep theirs. */
  lemma {:induction false} MarksEffect(marked: set<string>, form: map<string, string>, fields: seq<string>)
    requires forall i :: 0 <= i < |fields| ==> fields[i] in form
    requires forall i, j :: 0 <= i < j < |fields| ==> fields[i] != fields[j]
    ensures forall i :: 0 <= i < |fields| ==> (fields[i] in Marks(marked, form, fields) <==> Blank(form[fields[i]]))
    ensures forall f :: f !in fields ==> (f in Marks(marked, form, fields) <==> f in marked)
  {
    if fields != [] {
      var init := fields[..|fields| - 1];
      MarksEffect(marked, form, init);
      forall i | 0 <= i < |init| ensures init[i] != fields[|fields| - 1] {
      }
    }
  }

  /** After checking the required fields, each has the border exactly when blank; others keep theirs. */
  lemma RequiredMarks(marked: set<string>, form: map<string, string>)
    requires forall i :: 0 <= i < |RequiredFields| ==> RequiredFields[i] in form
    ensures forall i :: 0 <= i < |RequiredFields| ==>
              (RequiredFields[i] in Marks(marked, form, RequiredFields) <==> Blank(form[RequiredFields[i]]))
    ensures forall f :: f !in RequiredFields ==> (f in Marks(marked, form, RequiredFields) <==> f in marked)
  {
    assert forall i, j :: 0 <= i < j < |RequiredFields| ==> RequiredFields[i] != RequiredFields[j];
    MarksEffect(marked, form, RequiredFields);
  }

  /** `value || fallback`: the empty string is falsy. */
  function OrDefault(value: string, fallback: string): string
  {
    if value == "" then fallback else value
  }

  /** The pictures of the species the form offers. */
  const DefaultImages: map<string, string> := map[
    "Dog" := "https://kimi-web-img.moonshot.cn/img/d3544la1u8djza.cloudfront.net/acea66805b4b70839102add1ea6f98453f5afaa3.jpg",
    "Cat" := "https://kimi-web-img.moonshot.cn/img/www.dailypaws.com/b68bc9902f47dc70f3ce7e9b91177189f2a29a36.jpg",
    "Bird" := "https://kimi-web-img.moonshot.cn/img/www.petdhw.com/7f1c4ebcb73a85fc746c858824666fa7a2cf6d56.png",
    "Rabbit" := "https://kimi-web-img.moonshot.cn/img/example.com/rabbit-placeholder.jpg",
    "Fish" := "https://kimi-web-img.moonshot.cn/img/example.com/fish-placeholder.jpg",
    "Reptile" := "https://kimi-web-img.moonshot.cn/img/example.com/reptile-placeholder.jpg"
  ]

  /**
   * `getDefaultPetImage(species)`: the species' own picture, and the dog's for
   * any species without one. Every picture is a different one, so a pet gets
   * the dog's picture exactly when it is a dog or of an unlisted species.
   */
  function DefaultPetImage(species: string): (url: string)
    ensures url in DefaultImages.Values
    ensures species in DefaultImages ==> url == DefaultImages[species]
    ensures url == DefaultImages["Dog"] <==> species == "Dog" || species !in DefaultImages
  {
    if species in DefaultImages then DefaultImages[species] else DefaultImages["Dog"]
  }

  /**
   * The pet a valid form describes: the text fields are kept as typed, and
   * the picture is the species' default.
   */
  function NewPet(form: map<string, string>, owner: Owner, id: string, createdAt: string): (p: ClientPet)
    requires FormFields <= form.Keys
    ensures p.id == id && p.userId == owner && p.createdAt == createdAt
    ensures p.name == form["pet-name"] && p.species == form["pet-species"]
    ensures p.location == form["pet-location"] && p.phone == form["pet-phone"]
    ensures p.vaccinationStatus == form["pet-vaccinated"] && p.spayedNeutered == form["pet-spayed"]
    ensures p.medicalNotes == form["pet-medical-notes"] && p.additionalNotes == form["pet-notes"]
    ensures p.profilePicture == DefaultPetImage(form["pet-species"])
  {
    ClientPet(id, owner, form["pet-name"], form["pet-species"],
              OrDefault(form["pet-breed"], MixedBreed), OrDefault(form["pet-gender"], UnknownGender),
              JsString.ParseIntOrZero(form["pet-age-years"]), JsString.ParseIntOrZero(form["pet-age-months"]),
              OrDefault(form["pet-color"], NotSpecified), form["pet-location"], form["pet-phone"],
              form["pet-vaccinated"], form["pet-spayed"], form["pet-medical-notes"], form["pet-notes"],
              DefaultPetImage(form["pet-species"]), [], None, createdAt)
  }

  /**
   * The fields left empty get their defaults, the ones filled in are kept,
   * ages typed as decimal numbers are read as those numbers, and a new pet
   * has no health records and no appointment.
   */
  lemma NewPetFields(form: map<string, string>, owner: Owner, id: string, createdAt: string, years: nat, months: nat)
    requires FormFields <= form.Keys
    requires form["pet-age-years"] == Text.Decimal(years) && form["pet-age-months"] == Text.Decimal(months)
    ensures var p := NewPet(form, owner, id, createdAt);
            && (p.breed == MixedBreed <==> form["pet-breed"] == "" || form["pet-breed"] == MixedBreed)
            && (form["pet-breed"] != "" ==> p.breed == form["pet-breed"])
            && (p.gender == UnknownGender <==> form["pet-gender"] == "" || form["pet-gender"] == UnknownGender)
            && (form["pet-gender"] != "" ==> p.gender == form["pet-gender"])
            && (p.color == NotSpecified <==> form["pet-color"] == "" || form["pet-color"] == NotSpecified)
            && (form["pet-color"] != "" ==> p.color == form["pet-color"])
            && p.ageYears == years && p.ageMonths == months
            && p.healthRecords == [] && p.nextAppointment.None?
            && p.userId == owner
  {
    DecimalAge(years);
    DecimalAge(months);
  }

  /** An age field holding exactly the decimal spelling of a number reads as that number. */
  lemma DecimalAge(n: nat)
    ensures JsString.ParseIntOrZero(Text.Decimal(n)) == n
  {
    assert Text.Decimal(n) == [] + Text.Decimal(n) + [];
    JsString.ParseIntOfDecimal([], n, []);
  }

  /** A form whose ages are left empty gives a pet aged zero years and zero months. */
  lemma EmptyAgesAreZero(form: map<string, string>, owner: Owner, id: string, createdAt: string)
    requires FormFields <= form.Keys
    requires form["pet-age-years"] == "" && form["pet-age-months"] == ""
    ensures NewPet(form, owner, id, createdAt).ageYears == 0
    ensures NewPet(form, owner, id, createdAt).ageMonths == 0
  {
    assert JsString.AfterSign("") == "";
  }

  // ---------------------------------------------------------------- the page object

  /** The page object of `frontend/main.js`: the state its handlers change. */
  class PetCarePlatform {
    var currentUser: Option<Auth.PublicUser>
    var pets: seq<ClientPet>
    var notifications: seq<Notification>
    var currentTheme: string
    /** The notification badge and the cart counter; None until first updated. */
    var notificationBadge: Option<Badge>
    var cartCounter: Option<Badge>
    /** The form fields carrying the error border. */
    var errorMarked: set<string>
    const storage: LocalStorage

    constructor (storage: LocalStorage)
      ensures this.storage == storage
      ensures currentUser == None && pets == [] && notifications == [] && currentTheme == Light
      ensures notificationBadge == None && cartCounter == None && errorMarked == {}
    {
      this.storage := storage;
      currentUser := None;
      pets := [];
      notifications := [];
      currentTheme := Light;
      notificationBadge := None;
      cartCounter := None;
      errorMarked := {};
    }

    /** `toggleTheme()`: flips between light and dark and saves the new theme. */
    method ToggleTheme()
      modifies this`currentTheme, storage
      ensures currentTheme == Toggled(old(currentTheme))
      ensures storage.items == old(storage.items)[ThemeKey := currentTheme]
    {
      currentTheme := Toggled(currentTheme);
      storage.SetItem(ThemeKey, currentTheme);
    }

    /** `updateNotificationBadge()`: the badge shows the unread count, displayed when positive. */
    method UpdateNotificationBadge()
      modifies this`notificationBadge
      ensures notificationBadge == Some(BadgeFor(UnreadCount(notifications)))
    {
      notificationBadge := Some(BadgeFor(UnreadCount(notifications)));
    }

    /** `addNotification(notification)`: the stamped notification goes first, the others keep their order. */
    method AddNotification(n: NotificationInput, now: int)
      modifies this`notifications, this`notificationBadge
      ensures notifications == [Stamped(n, now)] + old(notifications)
      ensures notificationBadge == Some(BadgeFor(UnreadCount(old(notifications)) + if n.isRead then 0 else 1))
    {
      AddedCount(Stamped(n, now), notifications);
      notifications := [Stamped(n, now)] + notifications;
      UpdateNotificationBadge();
    }

    /** `markNotificationAsRead(id)`: the first notification with the id is marked read. */
    method MarkNotificationAsRead(id: int)
      modifies this`notifications, this`notificationBadge
      ensures notifications == MarkedRead(old(notifications), id)
      ensures FindNotification(old(notifications), id).Some? ==> notificationBadge == Some(BadgeFor(UnreadCount(notifications)))
      ensures FindNotification(old(notifications), id).None? ==> notificationBadge == old(notificationBadge)
    {
      var k := FindNotification(notifications, id);
      if k.Some? {
        notifications := notifications[k.value := notifications[k.value].(isRead := true)];
        UpdateNotificationBadge();
      }
    }

    /**
     * `updateCartCounter()`: for a logged-in user, the counter shows the
     * total quantity of the fetched cart; a failed fetch, or no user, leaves
     * it as it was.
     */
    method UpdateCartCounter(getCart: nat -> Result<seq<CartItem>, string>)
      modifies this`cartCounter
      ensures currentUser.Some? && getCart(currentUser.value.id).Success? ==>
                cartCounter == Some(BadgeFor(QuantitySum(getCart(currentUser.value.id).value)))
      ensures currentUser.None? || getCart(currentUser.value.id).Failure? ==> cartCounter == old(cartCounter)
    {
      if currentUser.Some? {
        var cart := getCart(currentUser.value.id);
        if cart.Success? {
          var totalItems := Reduce(cart.value, 0);
          cartCounter := Some(BadgeFor(totalItems));
        }
      }
    }

    /**
     * `handleAddPetForm(form)`: each required field gets the error border
     * exactly when it is blank; when none is, exactly one pet is appended,
     * owned by the current user or the demo user.
     */
    method HandleAddPetForm(form: map<string, string>, id: string, createdAt: string)
      requires forall i :: 0 <= i < |RequiredFields| ==> RequiredFields[i] in form
      requires Filled(form, RequiredFields) ==> FormFields <= form.Keys
      modifies this`pets, this`errorMarked
      ensures errorMarked == Marks(old(errorMarked), form, RequiredFields)
      ensures forall i :: 0 <= i < |RequiredFields| ==> (RequiredFields[i] in errorMarked <==> Blank(form[RequiredFields[i]]))
      ensures forall f :: f !in RequiredFields ==> (f in errorMarked <==> f in old(errorMarked))
      ensures !Filled(form, RequiredFields) ==> pets == old(pets)
      ensures Filled(form, RequiredFields) ==>
                pets == old(pets) + [NewPet(form, if currentUser.Some? then Account(currentUser.value.id) else DemoUser, id, createdAt)]
    {
      var isValid := CheckRequired(form, RequiredFields);
      RequiredMarks(old(errorMarked), form);
      if !isValid {
        return;
      }
      var owner := if currentUser.Some? then Account(currentUser.value.id) else DemoUser;
      pets := pets + [NewPet(form, owner, id, createdAt)];
    }

    /**
     * The `forEach` over the required fields: marks each blank one, clears
     * the mark of each other one, and reports whether none was blank.
     */
    method CheckRequired(form: map<string, string>, fields: seq<string>) returns (isValid: bool)
      requires forall i :: 0 <= i < |fields| ==> fields[i] in form
      modifies this`errorMarked
      ensures isValid == Filled(form, fields)
      ensures errorMarked == Marks(old(errorMarked), form, fields)
    {
      isValid := true;
      for i := 0 to |fields|
        invariant isValid <==> forall j :: 0 <= j < i ==> !Blank(form[fields[j]])
        invariant errorMarked == Marks(old(errorMarked), form, fields[..i])
      {
        var fieldId := fields[i];
        assert fields[..i + 1][..i] == fields[..i];
        if Blank(form[fieldId]) {
          errorMarked := errorMarked + {fieldId};
          isValid := false;
        } else {
          errorMarked := errorMarked - {fieldId};
        }
      }
      assert fields[..|fields|] == fields;
    }

    /** `handleLogout()`: drops the saved user and token; the page's other state stays. */
    method HandleLogout()
      modifies storage
      ensures storage.items == old(storage.items) - {UserKey, TokenKey}
    {
      storage.RemoveItem(UserKey);
      storage.RemoveItem(TokenKey);
    }
  }
}
