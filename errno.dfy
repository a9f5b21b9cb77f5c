/** Error numbers and exit statuses the commands and the test driver return (Linux values). */
module Errno {
  const ENXIO: int := 6
  const ENOMEM: int := 12
  const EBUSY: int := 16
  const EINVAL: int := 22

  const EXIT_SUCCESS: int := 0
  const EXIT_FAILURE: int := 1
}
