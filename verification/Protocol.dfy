/** Commands and replies, as they cross the wire and reach the dispatcher. */
module Protocol {
  import opened ByteStrings

  datatype Command = Command(name: Bytes, args: seq<Bytes>)

  datatype Reply =
    | Status(msg: Bytes)
    | Error(msg: Bytes)
    | Int(n: int)
    | Bulk(value: Bytes)
    | NullBulk
    | Array(elems: seq<Reply>)
    | NullArray

  datatype Verb =
    | PING | GET | SET | DEL | EXISTS | EXPIRE | PEXPIREAT | TTL | PERSIST | TYPE
    | LPUSH | RPUSH | LPOP | RPOP | LLEN | LRANGE
    | HSET | HGET | HDEL | HGETALL | HLEN
    | SADD | SREM | SISMEMBER | SMEMBERS | SCARD
    | INCR | DECR | INCRBY | DECRBY | MSET | MGET | SETNX
    | DBSIZE | FLUSHALL

  function NameOf(v: Verb): Bytes {
    match v
    case PING => "PING" case GET => "GET" case SET => "SET" case DEL => "DEL" case EXISTS => "EXISTS"
    case EXPIRE => "EXPIRE" case PEXPIREAT => "PEXPIREAT" case TTL => "TTL" case PERSIST => "PERSIST" case TYPE => "TYPE"
    case LPUSH => "LPUSH" case RPUSH => "RPUSH" case LPOP => "LPOP" case RPOP => "RPOP"
    case LLEN => "LLEN" case LRANGE => "LRANGE"
    case HSET => "HSET" case HGET => "HGET" case HDEL => "HDEL" case HGETALL => "HGETALL" case HLEN => "HLEN"
    case SADD => "SADD" case SREM => "SREM" case SISMEMBER => "SISMEMBER" case SMEMBERS => "SMEMBERS" case SCARD => "SCARD"
    case INCR => "INCR" case DECR => "DECR" case INCRBY => "INCRBY" case DECRBY => "DECRBY"
    case MSET => "MSET" case MGET => "MGET" case SETNX => "SETNX" case DBSIZE => "DBSIZE" case FLUSHALL => "FLUSHALL"
  }

  /** The dispatcher's handler table, looked up under the upper-cased name. */
  function VerbNamed(name: Bytes): Option<Verb> {
    match name
    case "PING" => Some(PING) case "GET" => Some(GET) case "SET" => Some(SET) case "DEL" => Some(DEL)
    case "EXISTS" => Some(EXISTS) case "EXPIRE" => Some(EXPIRE) case "PEXPIREAT" => Some(PEXPIREAT)
    case "TTL" => Some(TTL) case "PERSIST" => Some(PERSIST) case "TYPE" => Some(TYPE)
    case "LPUSH" => Some(LPUSH) case "RPUSH" => Some(RPUSH) case "LPOP" => Some(LPOP) case "RPOP" => Some(RPOP)
    case "LLEN" => Some(LLEN) case "LRANGE" => Some(LRANGE) case "HSET" => Some(HSET) case "HGET" => Some(HGET)
    case "HDEL" => Some(HDEL) case "HGETALL" => Some(HGETALL) case "HLEN" => Some(HLEN) case "SADD" => Some(SADD)
    case "SREM" => Some(SREM) case "SISMEMBER" => Some(SISMEMBER) case "SMEMBERS" => Some(SMEMBERS)
    case "SCARD" => Some(SCARD) case "INCR" => Some(INCR) case "DECR" => Some(DECR) case "INCRBY" => Some(INCRBY)
    case "DECRBY" => Some(DECRBY) case "MSET" => Some(MSET) case "MGET" => Some(MGET) case "SETNX" => Some(SETNX)
    case "DBSIZE" => Some(DBSIZE) case "FLUSHALL" => Some(FLUSHALL)
    case _ => None
  }

  function VerbOf(cmd: Command): Option<Verb> {
    VerbNamed(Upper(cmd.name))
  }

  lemma NamesAreUpper(v: Verb)
    ensures Upper(NameOf(v)) == NameOf(v)
  {
    hide VerbNamed;
  }

  lemma NamesAreKnown(v: Verb)
    ensures VerbNamed(NameOf(v)) == Some(v)
  {
    hide Upper;
  }

  /** A table name is already in upper case and names its own verb. */
  lemma NamesAgree(v: Verb)
    ensures Upper(NameOf(v)) == NameOf(v) && VerbNamed(NameOf(v)) == Some(v)
  {
    hide *;
    NamesAreUpper(v);
    NamesAreKnown(v);
  }
}
