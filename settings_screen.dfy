/**
 * The decision rules of the settings screen
 * (src/screens/SettingsScreen.tsx): the checks of the change-password form
 * and how the two switches are stored on the device and read back.
 */
module SettingsScreen {
  import opened Wrappers
  import opened Text

  // ---------------------------------------------------------------------
  // Change password

  const FillAllFields := "Please fill all fields"
  const PasswordsDiffer := "New passwords do not match"
  const TooShort := "Password must be at least 6 characters"

  /**
   * The alert `handleChangePassword` shows instead of sending: first for
   * an empty field, then for differing new passwords, then for a new
   * password under six UTF-16 code units; `None` when the request is sent.
   */
  function PasswordCheck(current: string, newPassword: string, confirm: string): (r: Option<string>)
    ensures r == Some(FillAllFields) <==> current == "" || newPassword == "" || confirm == ""
    ensures r == Some(PasswordsDiffer) <==>
      current != "" && newPassword != "" && confirm != "" && newPassword != confirm
    ensures r == Some(TooShort) <==>
      current != "" && newPassword != "" && newPassword == confirm && Utf16Length(newPassword) < 6
    ensures r == None <==>
      current != "" && newPassword == confirm && Utf16Length(newPassword) >= 6
  {
    if current == "" || newPassword == "" || confirm == "" then Some(FillAllFields)
    else if newPassword != confirm then Some(PasswordsDiffer)
    else if Utf16Length(newPassword) < 6 then Some(TooShort)
    else None
  }

  /** The body of the change-password request. */
  datatype PasswordChange = PasswordChange(email: Option<string>, currentPassword: string, newPassword: string)

  /** The password dialog of the screen. */
  class PasswordForm {
    var visible: bool
    var currentPassword: string
    var newPassword: string
    var confirmPassword: string

    constructor ()
      ensures !visible && currentPassword == "" && newPassword == "" && confirmPassword == ""
    {
      visible := false;
      currentPassword := "";
      newPassword := "";
      confirmPassword := "";
    }

    /**
     * `handleChangePassword`, given whether the server accepted the
     * request: the request is sent exactly when the checks pass; an
     * accepted one closes the dialog and clears the three fields, anything
     * else leaves the dialog as it was.
     */
    method ChangePassword(email: Option<string>, responseOk: bool) returns (sent: Option<PasswordChange>)
      modifies this
      ensures sent.None? <==> PasswordCheck(old(currentPassword), old(newPassword), old(confirmPassword)).Some?
      ensures sent.Some? ==> sent.value == PasswordChange(email, old(currentPassword), old(newPassword))
      ensures sent.Some? && responseOk ==>
        !visible && currentPassword == "" && newPassword == "" && confirmPassword == ""
      ensures sent.None? || !responseOk ==> unchanged(this)
    {
      if PasswordCheck(currentPassword, newPassword, confirmPassword).Some? {
        return None;
      }
      sent := Some(PasswordChange(email, currentPassword, newPassword));
      if responseOk {
        visible := false;
        currentPassword := "";
        newPassword := "";
        confirmPassword := "";
      }
    }
  }

  // ---------------------------------------------------------------------
  // Preferences

  const DarkKey := "settings_dark"
  const NotifyKey := "settings_notify"

  /** `String(val)` for a boolean. */
  function BoolString(b: bool): string {
    if b then "true" else "false"
  }

  /** What a stored value means: an absent key keeps the current value, and only 'true' is true. */
  function LoadFlag(stored: Option<string>, current: bool): (r: bool)
    ensures stored.None? ==> r == current
    ensures stored.Some? ==> (r <==> stored.value == "true")
  {
    if stored.None? then current else stored.value == "true"
  }

  /** A stored value read back gives the value stored, whatever the default. */
  lemma StoreThenLoad(v: bool, current: bool)
    ensures LoadFlag(Some(BoolString(v)), current) == v
  {
  }

  function Lookup(m: map<string, string>, k: string): Option<string> {
    if k in m then Some(m[k]) else None
  }

  /** The two switches and the device storage that keeps them, which outlives the screen. */
  class Preferences {
    var dark: bool
    var notify: bool
    var storage: map<string, string>

    /** The screen opens with dark off and notifications on, over what the device holds. */
    constructor (stored: map<string, string>)
      ensures !dark && notify && storage == stored
    {
      dark := false;
      notify := true;
      storage := stored;
    }

    /** `loadPreferences` */
    method LoadPreferences()
      modifies this
      ensures dark == LoadFlag(Lookup(storage, DarkKey), old(dark))
      ensures notify == LoadFlag(Lookup(storage, NotifyKey), old(notify))
      ensures storage == old(storage)
    {
      var d := Lookup(storage, DarkKey);
      var n := Lookup(storage, NotifyKey);
      if d.Some? {
        dark := d.value == "true";
      }
      if n.Some? {
        notify := n.value == "true";
      }
    }

    /** `toggleDark` */
    method ToggleDark(val: bool)
      modifies this
      ensures dark == val && notify == old(notify)
      ensures storage == old(storage)[DarkKey := BoolString(val)]
    {
      dark := val;
      storage := storage[DarkKey := BoolString(val)];
    }

    /** `toggleNotify` */
    method ToggleNotify(val: bool)
      modifies this
      ensures notify == val && dark == old(dark)
      ensures storage == old(storage)[NotifyKey := BoolString(val)]
    {
      notify := val;
      storage := storage[NotifyKey := BoolString(val)];
    }
  }

  /**
   * Switching the two settings and opening the screen again over the same
   * storage shows the switches as they were left.
   */
  method ToggleThenReopen(stored: map<string, string>, d: bool, n: bool) returns (dark: bool, notify: bool)
    ensures dark == d && notify == n
  {
    var p := new Preferences(stored);
    p.LoadPreferences();
    p.ToggleDark(d);
    p.ToggleNotify(n);
    var q := new Preferences(p.storage);
    q.LoadPreferences();
    StoreThenLoad(d, false);
    StoreThenLoad(n, true);
    dark, notify := q.dark, q.notify;
  }
}
