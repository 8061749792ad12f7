/** Small datatypes shared by every module of the model. */
module Base {
  datatype Option<+T> = None | Some(value: T)

  /** The tc actions of a broadcast: setting tunnel metadata and mirroring to an interface. */
  datatype Tc = SetTunnel(meta: nat) | Mirror(phys: nat)

  /** The result codes of the library that the modelled operations can return. */
  datatype Error = LSDNE_OK | LSDNE_NOMEM | LSDNE_NETLINK | LSDNE_INCONSISTENT | LSDNE_DUPLICATE | LSDNE_VALIDATE
}
