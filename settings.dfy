/** The settings page of src/_root/main/Settings.tsx: the WhatsApp link
    status with its QR code, and the notification and theme switches. */
module Settings {
  import opened Wrappers
  import Theme

  datatype LinkStatus = Disconnected | Connecting | Connected

  /** The body of a `/private/status` reply. */
  datatype StatusReply = StatusReply(connected: bool, qrCode: Option<string>)

  /** A reply's `qrCode` is truthy: present and not empty. */
  predicate HasQr(reply: StatusReply) {
    reply.qrCode.Some? && reply.qrCode.value != ""
  }

  class SettingsPage {
    var receiveNotifications: bool
    var themeToggle: bool
    var whatsappStatus: LinkStatus
    var qrCodeData: Option<string>
    var loading: bool
    const theme: Theme.ThemeProvider

    constructor (theme: Theme.ThemeProvider)
      ensures receiveNotifications && themeToggle
      ensures whatsappStatus == Disconnected && qrCodeData == None && !loading
      ensures this.theme == theme
    {
      receiveNotifications := true;
      themeToggle := true;
      whatsappStatus := Disconnected;
      qrCodeData := None;
      loading := false;
      this.theme := theme;
    }

    /** `checkStatus` with the reply, or `None` when the request fails. */
    method CheckStatus(reply: Option<StatusReply>)
      modifies this
      ensures reply.None? ==> whatsappStatus == old(whatsappStatus) && qrCodeData == old(qrCodeData)
      ensures reply.Some? && reply.value.connected ==> whatsappStatus == Connected && qrCodeData == None
      ensures reply.Some? && !reply.value.connected && HasQr(reply.value) ==>
        whatsappStatus == old(whatsappStatus) && qrCodeData == reply.value.qrCode
      ensures reply.Some? && !reply.value.connected && !HasQr(reply.value) ==>
        whatsappStatus == old(whatsappStatus) && qrCodeData == old(qrCodeData)
      ensures loading == old(loading) && receiveNotifications == old(receiveNotifications)
      ensures themeToggle == old(themeToggle)
    {
      match reply
      case None =>
      case Some(r) =>
        if r.connected {
          whatsappStatus := Connected;
          qrCodeData := None;
        } else if HasQr(r) {
          qrCodeData := r.qrCode;
        }
    }

    /** `handleConnectWhatsapp` up to its request: busy, and "connecting". */
    method StartConnect()
      modifies this
      ensures loading && whatsappStatus == Connecting && qrCodeData == old(qrCodeData)
      ensures receiveNotifications == old(receiveNotifications) && themeToggle == old(themeToggle)
    {
      loading := true;
      whatsappStatus := Connecting;
    }

    /** `handleConnectWhatsapp` after its request: the reply's QR code is
        shown, or a failure goes back to "disconnected"; never busy after. */
    method FinishConnect(reply: Option<StatusReply>)
      modifies this
      ensures !loading
      ensures reply.Some? ==> qrCodeData == reply.value.qrCode && whatsappStatus == old(whatsappStatus)
      ensures reply.None? ==> whatsappStatus == Disconnected && qrCodeData == old(qrCodeData)
      ensures receiveNotifications == old(receiveNotifications) && themeToggle == old(themeToggle)
    {
      match reply {
        case Some(r) =>
          qrCodeData := r.qrCode;
        case None =>
          whatsappStatus := Disconnected;
      }
      loading := false;
    }

    /** `handleDisconnect` up to its request; returns whether the user
        confirmed, and without confirmation nothing changes. */
    method StartDisconnect(confirmed: bool) returns (proceed: bool)
      modifies this
      ensures proceed == confirmed
      ensures !confirmed ==> loading == old(loading)
      ensures confirmed ==> loading
      ensures whatsappStatus == old(whatsappStatus) && qrCodeData == old(qrCodeData)
      ensures receiveNotifications == old(receiveNotifications) && themeToggle == old(themeToggle)
    {
      proceed := confirmed;
      if confirmed {
        loading := true;
      }
    }

    /** `handleDisconnect` after its request: a success unlinks and drops the
        QR code, a failure keeps both; never busy after. */
    method FinishDisconnect(ok: bool)
      modifies this
      ensures !loading
      ensures ok ==> whatsappStatus == Disconnected && qrCodeData == None
      ensures !ok ==> whatsappStatus == old(whatsappStatus) && qrCodeData == old(qrCodeData)
      ensures receiveNotifications == old(receiveNotifications) && themeToggle == old(themeToggle)
    {
      if ok {
        whatsappStatus := Disconnected;
        qrCodeData := None;
      }
      loading := false;
    }

    /** "Cancelar e tentar de novo": only the QR code is cleared. */
    method CancelQr()
      modifies this
      ensures qrCodeData == None && whatsappStatus == old(whatsappStatus) && loading == old(loading)
      ensures receiveNotifications == old(receiveNotifications) && themeToggle == old(themeToggle)
    {
      qrCodeData := None;
    }

    method ToggleNotifications()
      modifies this
      ensures receiveNotifications == !old(receiveNotifications) && themeToggle == old(themeToggle)
      ensures whatsappStatus == old(whatsappStatus) && qrCodeData == old(qrCodeData) && loading == old(loading)
    {
      receiveNotifications := !receiveNotifications;
    }

    /** The theme switch flips its own flag and toggles the shared theme. */
    method ToggleTheme()
      modifies this, theme
      ensures themeToggle == !old(themeToggle) && receiveNotifications == old(receiveNotifications)
      ensures theme.theme == Theme.Toggled(old(theme.theme))
      ensures theme.storage == old(theme.storage)[Theme.StorageKey := theme.theme]
      ensures whatsappStatus == old(whatsappStatus) && qrCodeData == old(qrCodeData) && loading == old(loading)
    {
      themeToggle := !themeToggle;
      theme.Toggle();
    }
  }
}
