/** What every part of the system that reads a share-link row agrees on. */
module ShareLinks {
  datatype LinkStatus = ACTIVE | REVOKED | EXPIRED | DISABLED
}
