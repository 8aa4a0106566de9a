/** The exceptions the session code throws or lets through, by class. Messages and
    causes are not modelled; the one exception whose message depends on its call site,
    the plain `ArgoException`, keeps it. */
module Exceptions {

  datatype Exception =
    | IncompatibleRemoteDevice(ip: string)       // IncompatibleRemoteDeviceException
    | IncompatibleSoftwareVersion(version: string) // IncompatibleSoftwareVersionException
    | ArgoCommunication(ip: string)               // ArgoCommunicationException
    | ArgoAuthentication(ip: string)              // ArgoAuthenticationException
    | ArgoUnsupportedIntent                       // ArgoUnsupportedIntentException
    | ArgoFailure(message: string)                // a plain ArgoException
    | JsonRpc                                     // org.alexd.jsonrpc.JSONRPCException
    | IllegalArgument                             // IllegalArgumentException, NumberFormatException
    | IllegalState                                // IllegalStateException
    | NullPointer                                 // NullPointerException
    | NoSuchAlgorithm                             // NoSuchAlgorithmException
    | UnsupportedEncoding                         // UnsupportedEncodingException

  /** The classes that extend `ArgoException`. */
  predicate IsArgoException(e: Exception) {
    e.IncompatibleRemoteDevice? || e.IncompatibleSoftwareVersion? || e.ArgoCommunication? ||
    e.ArgoAuthentication? || e.ArgoUnsupportedIntent? || e.ArgoFailure?
  }
}
