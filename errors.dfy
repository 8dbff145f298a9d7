/** Why a driver operation fails. Each kind is one `raise` of the source (or,
    for `disable_rf` and `enable_rf`, one `return False`); the class of the
    exception raised is given by `ExceptionClass`. */
module Errors {

  /** The certificate file a missing-file error is about. */
  datatype CertFile = CaFile | CertFile | KeyFile

  datatype Error =
    // pdp_context_define
    | BadId | BadApn | RfDisableFailed | DefineRejected | RfEnableFailed
    | NotAttached | ApnNotConfirmed
    // pdp_context_configure and pdp_context_activate
    | NotDefined | ConfigureRejected | NotConfigured | AddressFieldMissing
    // _put_file_in_flash
    | FsInitFailed | DownloadNotOpened | DownloadFailed | FsTermFailed
    // pdp_context_configure_ssl
    | FileNotFound(file: CertFile) | NoActiveContext | NoIpAddress | ClockNotSynced
    | CaConvertFailed | ClientConvertFailed
    // mqtt_connect
    | NoValidContext | NoValidAddress | UrlRejected | KeepaliveRejected
    | CleanSessionRejected | ClientIdRejected | SslArgumentsMissing | ConnectFailed
    // mqtt_disconnect, mqtt_susbscribe, mqtt_unsubscribe, mqtt_publish
    | DisconnectFailed | SubscribeFailed | UnsubscribeFailed | NoPrompt
    | PublishFailed | ReplyNotText

  /** The Python exception class the source raises for each kind. */
  function ExceptionClass(e: Error): string {
    match e
    case BadId => "ValueError"
    case BadApn => "ValueError"
    case RfDisableFailed => "RuntimeError"
    case DefineRejected => "ValueError"
    case RfEnableFailed => "RuntimeError"
    case NotAttached => "SystemError"
    case ApnNotConfirmed => "ValueError"
    case NotDefined => "ValueError"
    case ConfigureRejected => "ValueError"
    case NotConfigured => "ValueError"
    case AddressFieldMissing => "IndexError"
    case FsInitFailed => "SyntaxError"
    case DownloadNotOpened => "SystemError"
    case DownloadFailed => "SystemError"
    case FsTermFailed => "SystemError"
    case FileNotFound(_) => "FileNotFoundError"
    case NoActiveContext => "SystemError"
    case NoIpAddress => "SystemError"
    case ClockNotSynced => "SystemError"
    case CaConvertFailed => "SystemError"
    case ClientConvertFailed => "SystemError"
    case NoValidContext => "ValueError"
    case NoValidAddress => "ValueError"
    case UrlRejected => "SystemError"
    case KeepaliveRejected => "SystemError"
    case CleanSessionRejected => "SystemError"
    case ClientIdRejected => "SystemError"
    case SslArgumentsMissing => "TypeError"
    case ConnectFailed => "SystemError"
    case DisconnectFailed => "SystemError"
    case SubscribeFailed => "SystemError"
    case UnsubscribeFailed => "SystemError"
    case NoPrompt => "SystemError"
    case PublishFailed => "SystemError"
    case ReplyNotText => "AttributeError"
  }
}
